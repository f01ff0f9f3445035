/** Snapshot retention: `SnapshotsHolder` of new_meta_lab/Snapshots.h over the reference counts
    of new_meta_lab/Utils.cpp and the scoped handles of new_meta_lab/Proxy.h.

    Any number of threads are inside `Add`, whose two critical sections may be separated by
    anything; others take and drop handles, and one thread collects evicted snapshots. */
module Snapshots {

  import opened Options

  const MIN_ID := -0x8000_0000_0000_0000
  const MAX_ID := 0x7FFF_FFFF_FFFF_FFFF

  /** ID_TYPE, an int64_t. */
  type Id = x: int | MIN_ID <= x <= MAX_ID witness 0

  /** A snapshot's part of ReferenceProxy: its count, how many callbacks are registered, and
      how many calls of them there have been. */
  datatype Snap = Snap(id: Id, refcnt: int, callbacks: nat, ran: nat)

  /** Utils.cpp:10-18. */
  function UnRefed(x: Snap): Snap {
    if x.refcnt == 0 then x
    else x.(refcnt := x.refcnt - 1, ran := if x.refcnt == 1 then x.ran + x.callbacks else x.ran)
  }

  /** Utils.cpp:6-8. */
  function Refed(x: Snap): Snap { x.(refcnt := x.refcnt + 1) }

  /** The holder's fields. Snapshots are named by their position in `snaps`, which lists all
      whose callback was ever registered. */
  datatype Holder = Holder(
    limit: nat,
    snaps: seq<Snap>,
    active: map<Id, nat>,
    minId: Id,
    maxId: Id,
    toRelease: seq<nat>,
    done: bool)

  function NewHolder(k: nat): Holder { Holder(k, [], map[], MAX_ID, MIN_ID, [], false) }

  /** The first critical section of Add (lines 106-111). */
  predicate Refuses(h: Holder, id: Id) { h.active != map[] && id < h.maxId }

  /** The least key, `active_.begin()->first`. */
  ghost function Least(keys: set<Id>): (m: Id)
    ensures keys != {} ==> m in keys && forall x :: x in keys ==> m <= x
  {
    if keys == {} then MAX_ID
    else
      assert exists m :: m in keys && forall x :: x in keys ==> m <= x by { var m := LeastExists(keys); }
      var m :| m in keys && forall x :: x in keys ==> m <= x;
      m
  }

  lemma {:induction false} LeastExists(keys: set<Id>) returns (m: Id)
    requires keys != {}
    ensures m in keys && forall x :: x in keys ==> m <= x
  {
    var a :| a in keys;
    var rest := keys - {a};
    assert forall x :: x in keys ==> x == a || x in rest;
    m := a;
    if rest != {} {
      var l := LeastExists(rest);
      m := if a < l then a else l;
    }
  }

  datatype Added = Added(h: Holder, ok: bool, evicted: Option<nat>)

  /** The second critical section of Add (lines 116-141). A search for `min_id_` that finds
      nothing evicts nothing; `EvictsOldest` shows that it finds something. */
  ghost function Inserted(h: Holder, id: Id): Added {
    if h.done then Added(h, false, None)
    else
      var o := |h.snaps|;
      var g := h.(snaps := h.snaps + [Snap(id, 1, 1, 0)]);
      if id in h.active then Added(g, false, None)
      else
        var low := if h.minId > id then id else h.minId;
        var high := if h.maxId < id then id else h.maxId;
        var all := h.active[id := o];
        if |all| <= h.limit then Added(g.(active := all, minId := low, maxId := high), true, None)
        else
          var left := all - {low};
          Added(g.(active := left, minId := Least(left.Keys), maxId := high), true,
                if low in all then Some(all[low]) else None)
  }

  /** Lines 174-186: which snapshot GetSnapshot returns. */
  function Found(h: Holder, id: Id): Option<nat>
    requires id == 0 || id == h.maxId ==> id in h.active
  {
    if id == 0 || id == h.maxId then Some(h.active[id])
    else if id < h.minId || id > h.maxId then None
    else if id !in h.active then None
    else Some(h.active[id])
  }

  function SetSnap(h: Holder, o: nat, x: Snap): Holder
    requires o < |h.snaps|
  {
    h.(snaps := h.snaps[o := x])
  }

  // ---- The k largest ids ----

  /** `top` holds the k largest members of `all`, or all of them if there are fewer. */
  ghost predicate IsTop(top: set<Id>, all: set<Id>, k: nat) {
    && top <= all && |top| <= k
    && (forall a, b :: a in top && b in all - top ==> b < a)
    && (|top| < k ==> top == all)
  }

  /** There is only one such set. */
  lemma TopUnique(a: set<Id>, b: set<Id>, all: set<Id>, k: nat)
    requires IsTop(a, all, k) && IsTop(b, all, k)
    ensures a == b
  {
    TopWithin(a, b, all, k);
    TopWithin(b, a, all, k);
  }

  lemma TopWithin(a: set<Id>, b: set<Id>, all: set<Id>, k: nat)
    requires IsTop(a, all, k) && IsTop(b, all, k)
    ensures a <= b
  {
    forall x | x in a
      ensures x in b
    {
      InOrLarger(a, b, x, all, k);
      if b <= a - {x} {
        SubsetSize(b, a - {x});
      }
    }
  }

  /** If `b` lacks x of `a`, then all of `b` lies above x and so in `a`. */
  lemma InOrLarger(a: set<Id>, b: set<Id>, x: Id, all: set<Id>, k: nat)
    requires IsTop(a, all, k) && IsTop(b, all, k) && x in a
    ensures x in b || b <= a - {x}
  {
    if x !in b {
      assert x in all - b;
      forall y | y in b
        ensures y in a - {x}
      {
        assert x < y;
        assert y in all - a ==> y < x;
      }
    }
  }

  lemma {:induction false} SubsetSize(b: set<Id>, a: set<Id>)
    requires b <= a
    ensures |b| <= |a|
  {
    if b != {} {
      var x :| x in b;
      SubsetSize(b - {x}, a - {x});
    }
  }

  // ---- What the critical sections keep ----

  /** The bounds are those of the active ids. */
  ghost predicate BoundsOk(h: Holder) {
    && h.limit >= 1 && |h.active| <= h.limit
    && (h.active == map[] ==> h.minId == MAX_ID && h.maxId == MIN_ID)
    && (h.active != map[] ==> h.minId in h.active && h.maxId in h.active)
    && (forall id :: id in h.active ==> h.minId <= id <= h.maxId)
  }

  lemma WithId(h: Holder, id: Id, o: nat)
    requires id !in h.active
    ensures h.active[id := o].Keys == h.active.Keys + {id} && |h.active[id := o]| == |h.active| + 1
  {
  }

  lemma InsertedBounds(h: Holder, id: Id)
    requires BoundsOk(h)
    ensures BoundsOk(Inserted(h, id).h)
  {
    if !h.done && id !in h.active {
      WithId(h, id, |h.snaps|);
      var all := h.active[id := |h.snaps|];
      var low := if h.minId > id then id else h.minId;
      var high := if h.maxId < id then id else h.maxId;
      assert low in all && high in all;
      assert forall x :: x in all ==> low <= x <= high;
      if |all| > h.limit {
        var left := all - {low};
        LeftSize(all, low);
        assert high in left by {
          LowHigh(all.Keys, low, high);
        }
      }
    }
  }

  lemma LowHigh(keys: set<Id>, low: Id, high: Id)
    requires low in keys && forall x :: x in keys ==> low <= x <= high
    ensures low < high || |keys| == 1
  {
    if low >= high {
      assert keys == {low};
    }
  }

  lemma LeftSize(all: map<Id, nat>, low: Id)
    requires low in all
    ensures |all - {low}| == |all| - 1 && (all - {low}).Keys == all.Keys - {low}
  {
    assert (all - {low}).Keys == all.Keys - {low};
  }

  /** An id that goes in beyond the limit pushes out the least one, and only that. */
  lemma EvictsOldest(h: Holder, id: Id)
    requires BoundsOk(h) && !h.done && id !in h.active && |h.active| == h.limit
    ensures var a := Inserted(h, id);
            var low := Least(h.active.Keys + {id});
            && a.ok && a.evicted == Some(if low == id then |h.snaps| else h.active[low])
            && a.h.active.Keys == h.active.Keys + {id} - {low}
  {
    WithId(h, id, |h.snaps|);
    var all := h.active[id := |h.snaps|];
    LeftSize(all, if h.minId > id then id else h.minId);
  }

  /** The active ids stay the k largest of those that were put in. */
  lemma InsertedTop(h: Holder, id: Id, before: set<Id>)
    requires BoundsOk(h) && !h.done && IsTop(h.active.Keys, before, h.limit)
    ensures IsTop(Inserted(h, id).h.active.Keys, before + {id}, h.limit)
  {
    if id in h.active {
      assert before + {id} == before;
    } else {
      WithId(h, id, |h.snaps|);
      var keys := h.active.Keys + {id};
      var n := Inserted(h, id).h.active.Keys;
      if |keys| <= h.limit {
        assert h.active.Keys == before;
      } else {
        EvictsOldest(h, id);
        var low := Least(keys);
        assert n == keys - {low} && |n| == h.limit;
        forall a, b | a in n && b in before + {id} - n
          ensures b < a
        {
          if b !in keys {
            assert b in before - h.active.Keys;
          }
        }
      }
    }
  }

  // ---- What callers see ----

  /** When nothing happens between the two sections, Add takes exactly the ids above all
      active ones. */
  lemma AddAlone(h: Holder, id: Id)
    requires BoundsOk(h) && !h.done
    ensures !Refuses(h, id) && Inserted(h, id).ok <==> h.active == map[] || id > h.maxId
  {
  }

  /** GetSnapshot finds exactly the active ids. It meets its precondition, and so adds no empty
      entry to the map, unless the id is 0 and not active or the map is empty and the id is the
      initial `max_id_`. */
  lemma GetFindsActive(h: Holder, id: Id)
    requires BoundsOk(h)
    ensures (id == 0 || id == h.maxId ==> id in h.active) <==>
              id in h.active || (id != 0 && (h.active != map[] || id != MIN_ID))
    ensures (id == 0 || id == h.maxId ==> id in h.active) ==>
              Found(h, id) == if id in h.active then Some(h.active[id]) else None
  {
  }

  // ---- The threads ----

  /** A call of Add: before and between its sections, after an eviction that is not yet handed
      to the collector, or returned. */
  datatype AddPc = Start | Checked | Evicting(o: nat) | Returned(ok: bool)

  datatype Adder = Adder(id: Id, pc: AddPc)

  /** Who answers for the reference that Add takes (line 119): the map, an Add that evicted the
      snapshot, `to_release_`, or the collector. `Released`: the collector gave it back.
      `Refused`: the Add found the id taken and returned false. */
  datatype Place = Active | Evicted(j: nat) | Queued | Collecting | Released | Refused

  /** `gc`: the collector's local list. `handles`: the live scoped handles. `places` and
      `inserted` are history. */
  datatype State = State(
    h: Holder,
    adders: seq<Adder>,
    gc: seq<nat>,
    handles: multiset<nat>,
    places: seq<Place>,
    inserted: set<Id>)

  function New(k: nat): State { State(NewHolder(k), [], [], multiset{}, [], {}) }

  datatype Act =
    | Call(id: Id) | Check(j: nat) | Insert(j: nat) | Release(j: nat)
    | Get(id: Id, scoped: bool) | Drop(o: nat)
    | Collect | Give | NotifyDone

  ghost predicate Enabled(s: State, a: Act) {
    match a
    case Call(_) => true
    case Check(j) => j < |s.adders| && s.adders[j].pc.Start?
    case Insert(j) => j < |s.adders| && s.adders[j].pc.Checked?
    case Release(j) => j < |s.adders| && s.adders[j].pc.Evicting?
    case Get(id, _) =>
      && (id == 0 || id == s.h.maxId ==> id in s.h.active)
      && (Found(s.h, id).Some? ==> Found(s.h, id).value < |s.h.snaps|)
    case Drop(o) => o in s.handles && o < |s.h.snaps|
    case Collect => s.gc == [] && s.h.toRelease != []
    case Give => s.gc != [] && s.gc[0] < |s.h.snaps| && s.gc[0] < |s.places|
    case NotifyDone => true
  }

  function SetPc(s: State, j: nat, pc: AddPc): State
    requires j < |s.adders|
  {
    s.(adders := s.adders[j := s.adders[j].(pc := pc)])
  }

  function SetPlace(places: seq<Place>, o: nat, p: Place): seq<Place> {
    if o < |places| then places[o := p] else places
  }

  ghost function InsertStep(s: State, j: nat): State
    requires j < |s.adders|
  {
    var id := s.adders[j].id;
    var a := Inserted(s.h, id);
    if s.h.done then SetPc(s, j, Returned(false))
    else if !a.ok then
      SetPc(s, j, Returned(false)).(h := a.h, places := s.places + [Refused], inserted := s.inserted + {id})
    else if a.evicted.None? then
      SetPc(s, j, Returned(true)).(h := a.h, places := s.places + [Active], inserted := s.inserted + {id})
    else
      var e := a.evicted.value;
      SetPc(s, j, Evicting(e)).(h := a.h, places := SetPlace(s.places + [Active], e, Evicted(j)),
                                inserted := s.inserted + {id})
  }

  function CollectStep(s: State): State {
    s.(h := s.h.(toRelease := []), gc := s.h.toRelease,
       places := seq(|s.places|, o requires 0 <= o < |s.places| =>
         if s.places[o].Queued? then Collecting else s.places[o]))
  }

  ghost function Next(s: State, a: Act): State
    requires Enabled(s, a)
  {
    match a
    case Call(id) => s.(adders := s.adders + [Adder(id, Start)])
    case Check(j) => SetPc(s, j, if Refuses(s.h, s.adders[j].id) then Returned(false) else Checked)
    case Insert(j) => InsertStep(s, j)
    case Release(j) =>
      var o := s.adders[j].pc.o;
      SetPc(s, j, Returned(true)).(h := s.h.(toRelease := s.h.toRelease + [o]), places := SetPlace(s.places, o, Queued))
    case Get(id, scoped) =>
      if !scoped || Found(s.h, id).None? then s
      else
        var o := Found(s.h, id).value;
        s.(h := SetSnap(s.h, o, Refed(s.h.snaps[o])), handles := s.handles + multiset{o})
    case Drop(o) => s.(h := SetSnap(s.h, o, UnRefed(s.h.snaps[o])), handles := s.handles - multiset{o})
    case Collect => CollectStep(s)
    case Give =>
      var o := s.gc[0];
      s.(h := SetSnap(s.h, o, UnRefed(s.h.snaps[o])), gc := s.gc[1..], places := s.places[o := Released])
    case NotifyDone => s.(h := s.h.(done := true))
  }

  ghost predicate IsRun(s: State, acts: seq<Act>)
    decreases |acts|
  {
    acts == [] || (Enabled(s, acts[0]) && IsRun(Next(s, acts[0]), acts[1..]))
  }

  ghost function After(s: State, acts: seq<Act>): State
    requires IsRun(s, acts)
    decreases |acts|
  {
    if acts == [] then s else After(Next(s, acts[0]), acts[1..])
  }

  // ---- The invariant ----

  ghost predicate TopOk(s: State) { BoundsOk(s.h) && IsTop(s.h.active.Keys, s.inserted, s.h.limit) }

  /** A snapshot is in the map under its own id exactly when its place says so. */
  ghost predicate ActiveOk(active: map<Id, nat>, snaps: seq<Snap>, places: seq<Place>) {
    && |places| == |snaps|
    && (forall id :: id in active ==>
          active[id] < |places| && places[active[id]] == Active && snaps[active[id]].id == id)
    && (forall o :: 0 <= o < |places| && places[o] == Active ==> snaps[o].id in active && active[snaps[o].id] == o)
  }

  ghost predicate AddersOk(adders: seq<Adder>, places: seq<Place>) {
    && (forall j :: 0 <= j < |adders| && adders[j].pc.Evicting? ==>
          adders[j].pc.o < |places| && places[adders[j].pc.o] == Evicted(j))
    && (forall o :: 0 <= o < |places| && places[o].Evicted? ==>
          places[o].j < |adders| && adders[places[o].j].pc == Evicting(o))
  }

  /** `q` lists the snapshots at place `p`, each once. */
  ghost predicate ListOk(q: seq<nat>, places: seq<Place>, p: Place) {
    && (forall i :: 0 <= i < |q| ==> q[i] < |places| && places[q[i]] == p)
    && (forall i, j :: 0 <= i < j < |q| ==> q[i] != q[j])
    && (forall o :: 0 <= o < |places| && places[o] == p ==> o in q)
  }

  /** The reference that Add took is still held. */
  function Owner(p: Place): nat { if p.Released? then 0 else 1 }

  ghost predicate CountOk(x: Snap, p: Place, handles: nat) {
    && x.callbacks == 1 && x.refcnt == Owner(p) + handles
    && x.ran == if x.refcnt == 0 then 1 else 0
  }

  ghost predicate CountsOk(s: State) {
    && |s.places| == |s.h.snaps|
    && (forall o :: o in s.handles ==> o < |s.h.snaps|)
    && (forall o :: 0 <= o < |s.h.snaps| ==> CountOk(s.h.snaps[o], s.places[o], s.handles[o]))
  }

  ghost predicate PlacesOk(s: State) {
    && ActiveOk(s.h.active, s.h.snaps, s.places) && AddersOk(s.adders, s.places)
    && ListOk(s.h.toRelease, s.places, Queued) && ListOk(s.gc, s.places, Collecting)
  }

  ghost predicate Inv(s: State) { TopOk(s) && PlacesOk(s) && CountsOk(s) }

  lemma NewInv(k: nat)
    requires k >= 1
    ensures Inv(New(k))
  {
  }

  lemma StepTop(s: State, a: Act)
    requires TopOk(s) && Enabled(s, a)
    ensures TopOk(Next(s, a))
  {
    hide IsTop, Inserted, Found, Refuses;
    if a.Insert? {
      var id := s.adders[a.j].id;
      InsertedBounds(s.h, id);
      InsertedParts(s.h, id);
      if !s.h.done {
        InsertedTop(s.h, id, s.inserted);
      }
    }
  }

  /** The cases of the second section, for a holder whose bounds are right. */
  lemma InsertedParts(h: Holder, id: Id)
    requires BoundsOk(h)
    ensures var a := Inserted(h, id);
            && a.h.limit == h.limit && a.h.toRelease == h.toRelease && a.h.done == h.done
            && (h.done ==> a == Added(h, false, None))
            && (!h.done ==> a.h.snaps == h.snaps + [Snap(id, 1, 1, 0)] && a.ok == (id !in h.active))
            && (!h.done && id in h.active ==> a.h.active == h.active && a.evicted == None)
            && (a.ok ==>
                  var all := h.active[id := |h.snaps|];
                  if a.evicted.None? then a.h.active == all
                  else exists low :: low in all && a.evicted.value == all[low] && a.h.active == all - {low})
  {
    if !h.done && id !in h.active && |h.active| == h.limit {
      var low := if h.minId > id then id else h.minId;
      assert low in h.active[id := |h.snaps|];
    }
  }

  // places

  lemma AppendRefused(active: map<Id, nat>, snaps: seq<Snap>, places: seq<Place>, x: Snap)
    requires ActiveOk(active, snaps, places)
    ensures ActiveOk(active, snaps + [x], places + [Refused])
  {
  }

  lemma AppendActive(active: map<Id, nat>, snaps: seq<Snap>, places: seq<Place>, x: Snap)
    requires ActiveOk(active, snaps, places) && x.id !in active
    ensures ActiveOk(active[x.id := |snaps|], snaps + [x], places + [Active])
  {
  }

  lemma Evict(active: map<Id, nat>, snaps: seq<Snap>, places: seq<Place>, low: Id, j: nat)
    requires ActiveOk(active, snaps, places) && low in active
    ensures ActiveOk(active - {low}, snaps, places[active[low] := Evicted(j)])
  {
  }

  lemma InsertActive(s: State, j: nat)
    requires TopOk(s) && ActiveOk(s.h.active, s.h.snaps, s.places) && j < |s.adders|
    ensures var t := InsertStep(s, j); ActiveOk(t.h.active, t.h.snaps, t.places)
  {
    hide IsTop, Inserted, ActiveOk;
    var id := s.adders[j].id;
    var x := Snap(id, 1, 1, 0);
    var all := s.h.active[id := |s.h.snaps|];
    var a := Inserted(s.h, id);
    InsertedParts(s.h, id);
    AppendRefused(s.h.active, s.h.snaps, s.places, x);
    if a.ok {
      AppendActive(s.h.active, s.h.snaps, s.places, x);
      if a.evicted.Some? {
        var low :| low in all && a.evicted.value == all[low] && a.h.active == all - {low};
        ActiveAt(all, a.h.snaps, s.places + [Active], low);
        Evict(all, a.h.snaps, s.places + [Active], low, j);
      }
    }
  }

  lemma ActiveAt(active: map<Id, nat>, snaps: seq<Snap>, places: seq<Place>, low: Id)
    requires ActiveOk(active, snaps, places) && low in active
    ensures active[low] < |places| && places[active[low]] == Active
  {
  }

  /** The places after an insertion: one more, and perhaps an active one evicted. */
  lemma InsertPlaces(s: State, j: nat)
    requires TopOk(s) && ActiveOk(s.h.active, s.h.snaps, s.places) && j < |s.adders| && !s.h.done
    ensures var t, a := InsertStep(s, j), Inserted(s.h, s.adders[j].id);
            if !a.ok then t.places == s.places + [Refused]
            else if a.evicted.None? then t.places == s.places + [Active]
            else
              && a.evicted.value <= |s.places| && (s.places + [Active])[a.evicted.value] == Active
              && t.places == (s.places + [Active])[a.evicted.value := Evicted(j)]
  {
    hide IsTop, Inserted, ActiveOk;
    var id := s.adders[j].id;
    var all := s.h.active[id := |s.h.snaps|];
    var a := Inserted(s.h, id);
    InsertedParts(s.h, id);
    if a.ok {
      AppendActive(s.h.active, s.h.snaps, s.places, Snap(id, 1, 1, 0));
      if a.evicted.Some? {
        var low :| low in all && a.evicted.value == all[low] && a.h.active == all - {low};
        ActiveAt(all, a.h.snaps, s.places + [Active], low);
      }
    }
  }

  lemma InsertAdders(s: State, j: nat)
    requires TopOk(s) && ActiveOk(s.h.active, s.h.snaps, s.places)
    requires AddersOk(s.adders, s.places) && j < |s.adders| && s.adders[j].pc.Checked?
    ensures AddersOk(InsertStep(s, j).adders, InsertStep(s, j).places)
  {
    hide IsTop, Inserted, ActiveOk, BoundsOk;
    if !s.h.done {
      InsertPlaces(s, j);
    }
  }

  lemma ListAppend(q: seq<nat>, places: seq<Place>, p: Place, v: Place)
    requires ListOk(q, places, p) && v != p
    ensures ListOk(q, places + [v], p)
  {
  }

  lemma ListSame(q: seq<nat>, places: seq<Place>, p: Place, o: nat, v: Place)
    requires ListOk(q, places, p) && o < |places| && places[o] != p && v != p
    ensures ListOk(q, places[o := v], p)
  {
  }

  lemma InsertLists(s: State, j: nat, q: seq<nat>, p: Place)
    requires TopOk(s) && ActiveOk(s.h.active, s.h.snaps, s.places) && j < |s.adders|
    requires ListOk(q, s.places, p) && (p == Queued || p == Collecting)
    ensures ListOk(q, InsertStep(s, j).places, p)
  {
    hide IsTop, Inserted, ActiveOk, BoundsOk, ListOk;
    if !s.h.done {
      InsertPlaces(s, j);
      var a := Inserted(s.h, s.adders[j].id);
      ListAppend(q, s.places, p, Refused);
      ListAppend(q, s.places, p, Active);
      if a.ok && a.evicted.Some? {
        ListSame(q, s.places + [Active], p, a.evicted.value, Evicted(j));
      }
    }
  }

  lemma InsertPlacesOk(s: State, j: nat)
    requires TopOk(s) && PlacesOk(s) && j < |s.adders| && s.adders[j].pc.Checked?
    ensures PlacesOk(InsertStep(s, j))
  {
    hide IsTop, Inserted, BoundsOk, ListOk, AddersOk, ActiveOk;
    InsertedParts(s.h, s.adders[j].id);
    InsertActive(s, j);
    InsertAdders(s, j);
    InsertLists(s, j, s.h.toRelease, Queued);
    InsertLists(s, j, s.gc, Collecting);
  }

  lemma ReleasePlacesOk(s: State, j: nat)
    requires PlacesOk(s) && Enabled(s, Release(j))
    ensures PlacesOk(Next(s, Release(j)))
  {
    hide Found;
    var o := s.adders[j].pc.o;
    hide ListOk, ActiveOk;
    assert s.places[o] == Evicted(j);
    ActiveSame(s.h.active, s.h.snaps, s.places, o, Queued);
    ListSame(s.gc, s.places, Collecting, o, Queued);
    ListAdd(s.h.toRelease, s.places, Queued, o);
  }

  lemma ActiveSame(active: map<Id, nat>, snaps: seq<Snap>, places: seq<Place>, o: nat, v: Place)
    requires ActiveOk(active, snaps, places) && o < |places| && places[o] != Active && v != Active
    ensures ActiveOk(active, snaps, places[o := v])
  {
  }

  lemma ActiveSnap(active: map<Id, nat>, snaps: seq<Snap>, places: seq<Place>, o: nat, x: Snap)
    requires ActiveOk(active, snaps, places) && o < |snaps| && snaps[o].id == x.id
    ensures ActiveOk(active, snaps[o := x], places)
  {
  }

  lemma ListAdd(q: seq<nat>, places: seq<Place>, p: Place, o: nat)
    requires ListOk(q, places, p) && o < |places| && places[o] != p
    ensures ListOk(q + [o], places[o := p], p)
  {
    forall x | 0 <= x < |places| && places[o := p][x] == p
      ensures x in q + [o]
    {
      assert x == o || x in q;
      assert (q + [o])[|q|] == o;
    }
  }

  lemma ListPop(q: seq<nat>, places: seq<Place>, p: Place, v: Place)
    requires ListOk(q, places, p) && q != [] && v != p
    ensures q[0] < |places| && places[q[0]] == p && ListOk(q[1..], places[q[0] := v], p)
  {
    forall x | 0 <= x < |places| && places[q[0] := v][x] == p
      ensures x in q[1..]
    {
      assert x in q && x != q[0];
      var i :| 0 <= i < |q| && q[i] == x;
      assert q[1..][i - 1] == x;
    }
  }

  lemma GivePlacesOk(s: State)
    requires PlacesOk(s) && Enabled(s, Give)
    ensures PlacesOk(Next(s, Give))
  {
    var o := s.gc[0];
    ListPop(s.gc, s.places, Collecting, Released);
    hide ListOk, ActiveOk;
    ActiveSnap(s.h.active, s.h.snaps, s.places, o, UnRefed(s.h.snaps[o]));
    ActiveSame(s.h.active, s.h.snaps[o := UnRefed(s.h.snaps[o])], s.places, o, Released);
    ListSame(s.h.toRelease, s.places, Queued, o, Released);
  }

  lemma CollectPlacesOk(s: State)
    requires PlacesOk(s) && s.gc == []
    ensures PlacesOk(CollectStep(s))
  {
    var t := CollectStep(s);
    assert ListOk(t.gc, t.places, Collecting);
  }

  lemma OtherPlacesOk(s: State, a: Act)
    requires PlacesOk(s) && Enabled(s, a) && (a.Call? || a.Check? || a.Get? || a.Drop? || a.NotifyDone?)
    ensures PlacesOk(Next(s, a))
  {
    hide ListOk, ActiveOk, Refuses;
    if a.Get? && a.scoped && Found(s.h, a.id).Some? {
      var o := Found(s.h, a.id).value;
      ActiveSnap(s.h.active, s.h.snaps, s.places, o, Refed(s.h.snaps[o]));
    } else if a.Drop? {
      ActiveSnap(s.h.active, s.h.snaps, s.places, a.o, UnRefed(s.h.snaps[a.o]));
    }
  }

  lemma StepPlaces(s: State, a: Act)
    requires TopOk(s) && PlacesOk(s) && Enabled(s, a)
    ensures PlacesOk(Next(s, a))
  {
    hide TopOk, PlacesOk, InsertStep, CollectStep, Found;
    if a.Insert? {
      InsertPlacesOk(s, a.j);
    } else if a.Release? {
      ReleasePlacesOk(s, a.j);
    } else if a.Give? {
      GivePlacesOk(s);
    } else if a.Collect? {
      CollectPlacesOk(s);
    } else {
      OtherPlacesOk(s, a);
    }
  }

  // counts

  lemma InsertCounts(s: State, j: nat)
    requires TopOk(s) && CountsOk(s) && ActiveOk(s.h.active, s.h.snaps, s.places) && j < |s.adders|
    ensures CountsOk(InsertStep(s, j))
  {
    hide IsTop, Inserted, ActiveOk, BoundsOk;
    if !s.h.done {
      InsertPlaces(s, j);
      InsertedSnaps(s.h, s.adders[j].id);
      assert |s.h.snaps| !in s.handles;
    }
  }

  lemma InsertedSnaps(h: Holder, id: Id)
    ensures !h.done ==> Inserted(h, id).h.snaps == h.snaps + [Snap(id, 1, 1, 0)]
  {
  }

  lemma GetCounts(s: State, id: Id, scoped: bool)
    requires CountsOk(s) && ActiveOk(s.h.active, s.h.snaps, s.places) && Enabled(s, Get(id, scoped))
    ensures CountsOk(Next(s, Get(id, scoped)))
  {
    if Found(s.h, id).Some? {
      assert s.places[Found(s.h, id).value] == Active;
    }
  }

  lemma DropCounts(s: State, o: nat)
    requires CountsOk(s) && Enabled(s, Drop(o))
    ensures CountsOk(Next(s, Drop(o)))
  {
    assert s.handles[o] >= 1;
  }

  lemma GiveCounts(s: State)
    requires CountsOk(s) && ListOk(s.gc, s.places, Collecting) && Enabled(s, Give)
    ensures CountsOk(Next(s, Give))
  {
  }

  lemma MoveCounts(s: State, a: Act)
    requires CountsOk(s) && AddersOk(s.adders, s.places) && Enabled(s, a)
    requires a.Call? || a.Check? || a.Release? || a.Collect? || a.NotifyDone?
    ensures CountsOk(Next(s, a))
  {
  }

  lemma StepCounts(s: State, a: Act)
    requires Inv(s) && Enabled(s, a)
    ensures CountsOk(Next(s, a))
  {
    hide TopOk, CountsOk, ActiveOk, AddersOk, ListOk, InsertStep, Found, CollectStep;
    if a.Insert? {
      InsertCounts(s, a.j);
    } else if a.Get? {
      GetCounts(s, a.id, a.scoped);
    } else if a.Drop? {
      DropCounts(s, a.o);
    } else if a.Give? {
      GiveCounts(s);
    } else {
      MoveCounts(s, a);
    }
  }

  lemma LimitStays(s: State, a: Act)
    requires TopOk(s) && Enabled(s, a)
    ensures Next(s, a).h.limit == s.h.limit
  {
    hide IsTop, BoundsOk, Inserted, Found;
    if a.Insert? {
      InsertedParts(s.h, s.adders[a.j].id);
    }
  }

  lemma StepInv(s: State, a: Act)
    requires Inv(s) && Enabled(s, a)
    ensures Inv(Next(s, a)) && Next(s, a).h.limit == s.h.limit
  {
    hide TopOk, PlacesOk, CountsOk, Enabled, Next;
    LimitStays(s, a);
    StepTop(s, a);
    StepPlaces(s, a);
    StepCounts(s, a);
  }

  lemma {:induction false} RunInv(s: State, acts: seq<Act>)
    requires Inv(s) && IsRun(s, acts)
    ensures Inv(After(s, acts)) && After(s, acts).h.limit == s.h.limit
    decreases |acts|
  {
    hide Inv, Inserted, Found;
    if acts != [] {
      StepInv(s, acts[0]);
      RunInv(Next(s, acts[0]), acts[1..]);
    }
  }

  // ---- What every run keeps ----

  /** The reference taken by Add is still held by somebody. */
  ghost predicate Held(s: State, o: nat) {
    || (exists id :: id in s.h.active && s.h.active[id] == o)
    || o in s.h.toRelease || o in s.gc
    || (exists j :: 0 <= j < |s.adders| && s.adders[j].pc == Evicting(o))
  }

  /** The active ids are the k largest that were ever put in, and min and max are theirs. */
  lemma ReachableTop(k: nat, acts: seq<Act>)
    requires k >= 1 && IsRun(New(k), acts)
    ensures var s := After(New(k), acts);
            && IsTop(s.h.active.Keys, s.inserted, k)
            && (s.h.active != map[] ==> s.h.minId in s.h.active && s.h.maxId in s.h.active)
            && (forall id :: id in s.h.active ==> s.h.minId <= id <= s.h.maxId)
  {
    NewInv(k);
    RunInv(New(k), acts);
  }

  lemma HeldPlace(s: State, o: nat)
    requires PlacesOk(s) && o < |s.places|
    ensures Held(s, o) <==> !s.places[o].Released? && !s.places[o].Refused?
  {
    match s.places[o]
    case Active => assert s.h.snaps[o].id in s.h.active;
    case Evicted(j) => assert s.adders[j].pc == Evicting(o);
    case _ =>
  }

  /** In every reachable state, for every snapshot: its count is the reference of Add, while
      somebody holds it, plus its live handles; its callback has run at most once; it has run
      exactly when the snapshot was put in, nobody in the holder has it any more, and no handle
      is left. A snapshot refused as a duplicate keeps its reference for ever. */
  lemma ReachableCounts(k: nat, acts: seq<Act>, o: nat)
    requires k >= 1 && IsRun(New(k), acts) && o < |After(New(k), acts).h.snaps|
    ensures var s := After(New(k), acts);
            var x := s.h.snaps[o];
            && |s.places| == |s.h.snaps|
            && x.refcnt == s.handles[o] + (if Held(s, o) || s.places[o].Refused? then 1 else 0)
            && x.ran <= 1
            && (x.ran == 1 <==> !s.places[o].Refused? && !Held(s, o) && s.handles[o] == 0)
  {
    NewInv(k);
    RunInv(New(k), acts);
    var s := After(New(k), acts);
    HeldPlace(s, o);
    hide Held, PlacesOk, TopOk;
    assert CountOk(s.h.snaps[o], s.places[o], s.handles[o]);
  }

  lemma RanStays(s: State, a: Act, o: nat)
    requires Inv(s) && Enabled(s, a) && o < |s.h.snaps| && s.h.snaps[o].ran == 1
    ensures o < |Next(s, a).h.snaps| && Next(s, a).h.snaps[o] == s.h.snaps[o]
  {
    hide Inserted, Found, InsertStep, TopOk, AddersOk, ActiveOk;
    RanParts(s, o);
    hide Inv, CountsOk, PlacesOk, ListOk;
    if a.Insert? {
      InsertKeepsSnap(s, a.j, o);
    } else if a.Get? {
      RanNotFound(s, a.id, o);
    }
  }

  /** A snapshot called back has count 0, has been released, and has no handle. */
  lemma RanParts(s: State, o: nat)
    requires Inv(s) && o < |s.h.snaps| && s.h.snaps[o].ran == 1
    ensures s.h.snaps[o].refcnt == 0 && o < |s.places| && s.places[o].Released? && o !in s.handles
    ensures PlacesOk(s)
  {
    hide TopOk, PlacesOk;
    assert CountOk(s.h.snaps[o], s.places[o], s.handles[o]);
  }

  lemma RanNotFound(s: State, id: Id, o: nat)
    requires PlacesOk(s) && o < |s.places| && s.places[o].Released?
    requires id == 0 || id == s.h.maxId ==> id in s.h.active
    ensures Found(s.h, id) != Some(o)
  {
    FoundActive(s, id);
  }

  lemma InsertKeepsSnap(s: State, j: nat, o: nat)
    requires j < |s.adders| && o < |s.h.snaps|
    ensures o < |InsertStep(s, j).h.snaps| && InsertStep(s, j).h.snaps[o] == s.h.snaps[o]
  {
    hide Inserted;
    InsertedSnaps(s.h, s.adders[j].id);
    DoneKeeps(s.h, s.adders[j].id);
  }

  lemma DoneKeeps(h: Holder, id: Id)
    ensures h.done ==> Inserted(h, id).h == h
  {
  }

  lemma FoundActive(s: State, id: Id)
    requires PlacesOk(s) && (id == 0 || id == s.h.maxId ==> id in s.h.active)
    ensures Found(s.h, id).Some? ==> Found(s.h, id).value < |s.places| && s.places[Found(s.h, id).value] == Active
  {
  }

  /** Once its callback has run, a snapshot is never referenced or called back again. */
  lemma {:induction false} RanIsFinal(s: State, acts: seq<Act>, o: nat)
    requires Inv(s) && IsRun(s, acts) && o < |s.h.snaps| && s.h.snaps[o].ran == 1
    ensures o < |After(s, acts).h.snaps| && After(s, acts).h.snaps[o] == s.h.snaps[o]
    decreases |acts|
  {
    hide Inv, Enabled, Next;
    if acts != [] {
      StepInv(s, acts[0]);
      RanStays(s, acts[0], o);
      RanIsFinal(Next(s, acts[0]), acts[1..], o);
    }
  }
}
