/** What `Add` and `NotifyDone` of new_meta_lab/Snapshots.h tell their callers, over the runs of
    module Snapshots: true exactly for the ids that went in, and nothing goes in once done. */
module SnapshotAnswers {
  import opened Options
  import opened Snapshots

  /** An id and whether it counts. */
  datatype Mark = Mark(id: Id, counts: bool)

  function Ids(marks: seq<Mark>): multiset<Id> {
    if marks == [] then multiset{}
    else (if marks[0].counts then multiset{marks[0].id} else multiset{}) + Ids(marks[1..])
  }

  lemma {:induction false} IdsAppend(marks: seq<Mark>, m: Mark)
    ensures Ids(marks + [m]) == Ids(marks) + if m.counts then multiset{m.id} else multiset{}
  {
    if marks == [] {
      assert marks + [m] == [m] && [m][1..] == [];
    } else {
      assert (marks + [m])[1..] == marks[1..] + [m];
      IdsAppend(marks[1..], m);
    }
  }

  lemma {:induction false} IdsTurn(marks: seq<Mark>, j: nat)
    requires j < |marks| && !marks[j].counts
    ensures Ids(marks[j := marks[j].(counts := true)]) == Ids(marks) + multiset{marks[j].id}
  {
    var turned := marks[j := marks[j].(counts := true)];
    if j == 0 {
      assert turned[1..] == marks[1..];
    } else {
      assert turned[1..] == marks[1..][j - 1 := marks[1..][j - 1].(counts := true)];
      IdsTurn(marks[1..], j - 1);
    }
  }

  /** The calls that have answered true, or will when they have handed over what they evicted. */
  function Granted(adders: seq<Adder>): (marks: seq<Mark>)
    ensures |marks| == |adders|
  {
    seq(|adders|, j requires 0 <= j < |adders| =>
      Mark(adders[j].id, adders[j].pc.Evicting? || adders[j].pc == Returned(true)))
  }

  /** The snapshots that went into the map. */
  function Entered(s: State): seq<Mark>
    requires |s.places| == |s.h.snaps|
  {
    seq(|s.places|, o requires 0 <= o < |s.places| => Mark(s.h.snaps[o].id, !s.places[o].Refused?))
  }

  ghost predicate AnswersOk(s: State) {
    |s.places| == |s.h.snaps| && Ids(Granted(s.adders)) == Ids(Entered(s))
  }

  /** The steps that take nothing in leave both lists alone, but for new calls. */
  lemma OtherMarks(s: State, a: Act)
    requires PlacesOk(s) && Enabled(s, a) && !a.Insert?
    ensures |s.places| == |s.h.snaps| && |Next(s, a).places| == |Next(s, a).h.snaps|
    ensures Entered(Next(s, a)) == Entered(s)
    ensures Granted(Next(s, a).adders) == Granted(s.adders) + if a.Call? then [Mark(a.id, false)] else []
  {
    hide Found, Refuses, CollectStep, Granted, Entered, ActiveOk, AddersOk, ListOk, Enabled, Next;
    SizesOf(s.h.active, s.h.snaps, s.places);
    OtherGrants(s, a);
    if a.Give? {
      GiveEnters(s);
    } else if a.Release? {
      ReleaseEnters(s, a.j);
    } else {
      OtherEnters(s, a);
    }
    EnteredSame(s, Next(s, a));
  }

  /** The same snapshots, of which the same were refused. */
  ghost predicate SameEntry(s: State, t: State) {
    && |s.places| == |s.h.snaps| == |t.places| == |t.h.snaps|
    && forall o :: 0 <= o < |s.places| ==>
         t.h.snaps[o].id == s.h.snaps[o].id && t.places[o].Refused? == s.places[o].Refused?
  }

  lemma EnteredSame(s: State, t: State)
    requires SameEntry(s, t)
    ensures Entered(t) == Entered(s)
  {
  }

  lemma GiveEnters(s: State)
    requires ListOk(s.gc, s.places, Collecting) && Enabled(s, Give) && |s.places| == |s.h.snaps|
    ensures SameEntry(s, Next(s, Give))
  {
    assert s.places[s.gc[0]] == Collecting;
  }

  lemma ReleaseEnters(s: State, j: nat)
    requires AddersOk(s.adders, s.places) && Enabled(s, Release(j)) && |s.places| == |s.h.snaps|
    ensures SameEntry(s, Next(s, Release(j)))
  {
    assert s.places[s.adders[j].pc.o] == Evicted(j);
  }

  lemma OtherEnters(s: State, a: Act)
    requires Enabled(s, a) && !a.Insert? && !a.Give? && !a.Release? && |s.places| == |s.h.snaps|
    ensures SameEntry(s, Next(s, a))
  {
    hide Found, Refuses;
  }

  lemma OtherGrants(s: State, a: Act)
    requires Enabled(s, a) && !a.Insert?
    ensures Granted(Next(s, a).adders) == Granted(s.adders) + if a.Call? then [Mark(a.id, false)] else []
  {
    hide Found, Refuses;
  }

  /** Whether the second section takes the id in. */
  predicate Takes(h: Holder, id: Id) { !h.done && id !in h.active }

  /** The second section of an Add. */
  lemma InsertGrants(s: State, j: nat)
    requires TopOk(s) && Enabled(s, Insert(j))
    ensures j < |s.adders| && Granted(s.adders)[j] == Mark(s.adders[j].id, false)
    ensures Granted(Next(s, Insert(j)).adders)
            == Granted(s.adders)[j := Mark(s.adders[j].id, Takes(s.h, s.adders[j].id))]
  {
    hide Inserted, IsTop, Found;
    InsertedParts(s.h, s.adders[j].id);
    hide BoundsOk;
  }

  lemma InsertEnters(s: State, j: nat)
    requires TopOk(s) && ActiveOk(s.h.active, s.h.snaps, s.places) && Enabled(s, Insert(j))
    ensures j < |s.adders| && |s.places| == |s.h.snaps|
    ensures |Next(s, Insert(j)).places| == |Next(s, Insert(j)).h.snaps|
    ensures Entered(Next(s, Insert(j))) ==
              Entered(s) + if s.h.done then [] else [Mark(s.adders[j].id, Takes(s.h, s.adders[j].id))]
  {
    hide Inserted, IsTop, Found;
    InsertedParts(s.h, s.adders[j].id);
    SizesOf(s.h.active, s.h.snaps, s.places);
    if !s.h.done {
      InsertPlaces(s, j);
    }
    hide BoundsOk, ActiveOk;
  }

  lemma SizesOf(active: map<Id, nat>, snaps: seq<Snap>, places: seq<Place>)
    requires ActiveOk(active, snaps, places)
    ensures |places| == |snaps|
  {
  }

  lemma StepAnswers(s: State, a: Act)
    requires Inv(s) && Enabled(s, a) && AnswersOk(s)
    ensures AnswersOk(Next(s, a))
  {
    hide TopOk, PlacesOk, CountsOk, ActiveOk, Ids, Granted, Entered, InsertStep, CollectStep, Found, Refuses;
    if a.Insert? {
      var id := s.adders[a.j].id;
      ActivePart(s);
      InsertGrants(s, a.j);
      InsertEnters(s, a.j);
      IdsAppend(Entered(s), Mark(id, true));
      IdsAppend(Entered(s), Mark(id, false));
      IdsTurn(Granted(s.adders), a.j);
      assert Granted(s.adders)[a.j := Mark(id, false)] == Granted(s.adders);
      assert Entered(s) + [] == Entered(s);
    } else {
      OtherMarks(s, a);
      if a.Call? {
        IdsAppend(Granted(s.adders), Mark(a.id, false));
      } else {
        assert Granted(s.adders) + [] == Granted(s.adders);
      }
    }
  }

  lemma ActivePart(s: State)
    requires PlacesOk(s)
    ensures ActiveOk(s.h.active, s.h.snaps, s.places)
  {
  }

  lemma {:induction false} RunAnswers(s: State, acts: seq<Act>)
    requires Inv(s) && IsRun(s, acts) && AnswersOk(s)
    ensures AnswersOk(After(s, acts))
    decreases |acts|
  {
    hide Inv, Enabled, Next, AnswersOk;
    if acts != [] {
      StepInv(s, acts[0]);
      StepAnswers(s, acts[0]);
      RunAnswers(Next(s, acts[0]), acts[1..]);
    }
  }

  /** In every reachable state the ids of the Adds that have answered true, with those still
      handing over what they evicted, are exactly the ids of the snapshots that went in, as often
      as they did. */
  lemma TrueIfEntered(k: nat, acts: seq<Act>)
    requires k >= 1 && IsRun(New(k), acts)
    ensures var s := After(New(k), acts);
            |s.places| == |s.h.snaps| && Ids(Granted(s.adders)) == Ids(Entered(s))
  {
    NewInv(k);
    RunAnswers(New(k), acts);
  }

  /** What becomes of an Add by its next step: the first section refuses exactly the ids below an
      active one, and the second takes in exactly those that are not active, unless the holder is
      done. */
  lemma AddOutcome(s: State, a: Act, j: nat)
    requires BoundsOk(s.h) && Enabled(s, a) && (a == Check(j) || a == Insert(j))
    ensures j < |s.adders| && j < |Next(s, a).adders|
    ensures var id, pc := s.adders[j].id, Next(s, a).adders[j].pc;
            && (a == Check(j) ==>
                  pc == if exists x :: x in s.h.active && id < x then Returned(false) else Checked)
            && (a == Insert(j) ==>
                  (pc.Evicting? || pc == Returned(true)) == (!s.h.done && id !in s.h.active)
                  && (pc.Evicting? || pc.Returned?))
  {
    hide Inserted, Found;
    if a == Insert(j) {
      InsertedParts(s.h, s.adders[j].id);
    }
  }

  /** Once the holder is done, nothing goes in any more. */
  lemma {:induction false} DoneIsFinal(s: State, acts: seq<Act>)
    requires s.h.done && IsRun(s, acts)
    ensures var t := After(s, acts);
            t.h.done && t.h.active == s.h.active && t.inserted == s.inserted && |t.h.snaps| == |s.h.snaps|
    decreases |acts|
  {
    hide Inserted, Found, Refuses, Enabled;
    if acts != [] {
      DoneStep(s, acts[0]);
      DoneIsFinal(Next(s, acts[0]), acts[1..]);
    }
  }

  /** The holder is done exactly when it has been told so. */
  lemma {:induction false} DoneIff(s: State, acts: seq<Act>)
    requires IsRun(s, acts)
    ensures After(s, acts).h.done <==> s.h.done || NotifyDone in acts
    decreases |acts|
  {
    hide Enabled, Inserted, Found, Refuses;
    if acts != [] {
      DoneStays(s, acts[0]);
      DoneIff(Next(s, acts[0]), acts[1..]);
    }
  }

  lemma DoneStays(s: State, a: Act)
    requires Enabled(s, a)
    ensures Next(s, a).h.done <==> s.h.done || a == NotifyDone
  {
    hide Found, Refuses;
    if a.Insert? {
      InsertedDone(s.h, s.adders[a.j].id);
    }
  }

  lemma InsertedDone(h: Holder, id: Id)
    ensures Inserted(h, id).h.done == h.done
  {
  }

  lemma DoneStep(s: State, a: Act)
    requires s.h.done && Enabled(s, a)
    ensures var t := Next(s, a);
            t.h.done && t.h.active == s.h.active && t.inserted == s.inserted && |t.h.snaps| == |s.h.snaps|
  {
    hide InsertStep, CollectStep, Found, Refuses;
    if a.Insert? {
      InsertWhenDone(s, a.j);
    } else if a.Collect? {
      CollectKeeps(s);
    }
  }

  lemma InsertWhenDone(s: State, j: nat)
    requires s.h.done && j < |s.adders|
    ensures InsertStep(s, j) == SetPc(s, j, Returned(false))
  {
    hide Inserted;
  }

  lemma CollectKeeps(s: State)
    ensures var t := CollectStep(s); t.h == s.h.(toRelease := []) && t.inserted == s.inserted
  {
  }
}
