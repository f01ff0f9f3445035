/** The two-level locking protocol of `BaseGuard` (ck_lab/HierarchyGuard.h) as a step
    relation over any number of guards, one per thread.

    All guards share one relation (`rel_`) and one guard mutex; every relation entry owns
    a mutex of its own, allocated when the entry is emplaced and destroyed when the entry
    is erased. An unlock is split in two steps, the moment at which the mutex becomes
    free and the moment at which the call returns, because until it returns the call
    still touches the mutex object. */
module HierarchyGuard {

  import opened Options

  type Id(==, !new)

  /** Where a guard stands. The names follow the statements of the constructor
      (Start .. Live) and of the destructor (Live .. Done). */
  datatype Pc =
    | Start       // the caller has not yet locked the guard mutex
    | Entered     // guard mutex locked and moved into the guard; entry not yet looked up
    | Registered  // entry emplaced if absent, counter incremented, guard mutex still held
    | Waiting     // guard mutex released, waiting for the entry mutex
    | Live        // constructor done: holds the entry mutex
    | Cleaning    // destructor holds the guard mutex again; counter not yet decremented
    | Last        // the counter dropped to zero: OnNoWaiters will run
    | Erasing     // OnNoWaiters: entry mutex unlocked, entry about to be erased
    | Leaving     // the counter is not zero: entry_lock_ about to be destroyed
    | Returning   // the entry mutex is free, but the unlock call has not returned
    | Dropping    // no longer refers to an entry; guard_lock_ about to be destroyed
    | Done

  /** `mutex` is the identity of the entry mutex that `rel_cursor_` leads to. */
  datatype Guard = Guard(pc: Pc, id: Id, mutex: nat)

  datatype Entry = Entry(counter: nat, mutex: nat)

  /** `owners` maps every entry mutex that is alive to the guard that holds it, and
      `nextMutex` bounds the identities handed out so far. */
  datatype State = State(
    guards: seq<Guard>,
    guardLock: Option<nat>,
    rel: map<Id, Entry>,
    owners: map<nat, Option<nat>>,
    nextMutex: nat)

  predicate HoldsGuardLock(pc: Pc) {
    || pc.Entered? || pc.Registered? || pc.Cleaning? || pc.Last?
    || pc.Erasing? || pc.Leaving? || pc.Returning? || pc.Dropping?
  }

  /** The guard is counted by its entry. */
  predicate Counted(pc: Pc) { (pc.Registered? || pc.Waiting? || pc.Live? || pc.Cleaning?) }

  predicate HoldsEntry(pc: Pc) { (pc.Live? || pc.Cleaning? || pc.Last? || pc.Leaving?) }

  /** The guard's next steps may still use the entry or its mutex. */
  predicate Touches(pc: Pc) {
    || pc.Registered? || pc.Waiting? || pc.Live? || pc.Cleaning?
    || pc.Last? || pc.Erasing? || pc.Leaving? || pc.Returning?
  }

  ghost predicate Init(s: State) {
    && (forall g :: 0 <= g < |s.guards| ==> s.guards[g].pc == Start)
    && s.guardLock == None && s.rel == map[] && s.owners == map[]
  }

  // ---- The steps of guard g ----

  function Moved(s: State, g: nat, pc: Pc): State
    requires g < |s.guards|
  {
    s.(guards := s.guards[g := s.guards[g].(pc := pc)])
  }

  /** The caller locks the guard mutex before it constructs the guard (line 66-67); the
      destructor locks it again (line 95). */
  ghost predicate LockGuard(s: State, t: State, g: nat)
    requires g < |s.guards|
  {
    && s.guardLock == None
    && (s.guards[g].pc.Start? || s.guards[g].pc.Live?)
    && t == Moved(s, g, if s.guards[g].pc == Start then Entered else Cleaning).(guardLock := Some(g))
  }

  /** Line 69-70: emplace leaves an existing entry alone, and the counter goes up. */
  ghost predicate Register(s: State, t: State, g: nat)
    requires g < |s.guards|
  {
    var me := s.guards[g];
    && me.pc == Entered
    && if me.id in s.rel then
         var e := s.rel[me.id];
         t == s.(guards := s.guards[g := Guard(Registered, me.id, e.mutex)],
                 rel := s.rel[me.id := Entry(e.counter + 1, e.mutex)])
       else
         var m := s.nextMutex;
         t == s.(guards := s.guards[g := Guard(Registered, me.id, m)],
                 rel := s.rel[me.id := Entry(1, m)],
                 owners := s.owners[m := None],
                 nextMutex := m + 1)
  }

  /** Line 78. */
  ghost predicate UnlockGuardEarly(s: State, t: State, g: nat)
    requires g < |s.guards|
  {
    s.guards[g].pc == Registered && t == Moved(s, g, Waiting).(guardLock := None)
  }

  /** Line 80. */
  ghost predicate LockEntry(s: State, t: State, g: nat)
    requires g < |s.guards|
  {
    var me := s.guards[g];
    && me.pc == Waiting
    && me.mutex in s.owners && s.owners[me.mutex] == None
    && t == Moved(s, g, Live).(owners := s.owners[me.mutex := Some(g)])
  }

  /** Line 96-97. */
  ghost predicate Decrement(s: State, t: State, g: nat)
    requires g < |s.guards|
  {
    var me := s.guards[g];
    && me.pc == Cleaning
    && me.id in s.rel && s.rel[me.id].counter > 0
    && var e := s.rel[me.id].(counter := s.rel[me.id].counter - 1);
       t == Moved(s, g, if e.counter == 0 then Last else Leaving).(rel := s.rel[me.id := e])
  }

  /** The entry mutex becomes free: line 88 for the last guard, the destruction of
      entry_lock_ (declared after guard_lock_, so destroyed first) for any other. */
  ghost predicate UnlockEntry(s: State, t: State, g: nat)
    requires g < |s.guards|
  {
    var me := s.guards[g];
    && (me.pc.Last? || me.pc.Leaving?)
    && me.mutex in s.owners
    && t == Moved(s, g, if me.pc == Last then Erasing else Returning)
            .(owners := s.owners[me.mutex := None])
  }

  /** Line 89: the entry and its mutex are destroyed. */
  ghost predicate Erase(s: State, t: State, g: nat)
    requires g < |s.guards|
  {
    var me := s.guards[g];
    && me.pc == Erasing
    && t == Moved(s, g, Dropping).(rel := s.rel - {me.id}, owners := s.owners - {me.mutex})
  }

  ghost predicate UnlockReturns(s: State, t: State, g: nat)
    requires g < |s.guards|
  {
    s.guards[g].pc == Returning && t == Moved(s, g, Dropping)
  }

  /** The destruction of guard_lock_. */
  ghost predicate UnlockGuard(s: State, t: State, g: nat)
    requires g < |s.guards|
  {
    s.guards[g].pc == Dropping && t == Moved(s, g, Done).(guardLock := None)
  }

  ghost predicate StepOf(s: State, t: State, g: nat) {
    && g < |s.guards|
    && (|| LockGuard(s, t, g) || Register(s, t, g) || UnlockGuardEarly(s, t, g)
        || LockEntry(s, t, g) || Decrement(s, t, g) || UnlockEntry(s, t, g)
        || Erase(s, t, g) || UnlockReturns(s, t, g) || UnlockGuard(s, t, g))
  }

  ghost predicate Step(s: State, t: State) { exists g: nat :: StepOf(s, t, g) }

  /** A run: any interleaving of the guards' steps. */
  ghost predicate IsRun(run: seq<State>) {
    && |run| > 0 && Init(run[0])
    && forall i :: 0 <= i < |run| - 1 ==> Step(run[i], run[i + 1])
  }

  // ---- The invariant ----

  /** How many guards the entry of `id` counts. */
  function Count(guards: seq<Guard>, id: Id): nat {
    if guards == [] then 0
    else (if Counted(guards[0].pc) && guards[0].id == id then 1 else 0) + Count(guards[1..], id)
  }

  lemma {:induction false} CountUpdate(guards: seq<Guard>, g: nat, v: Guard, id: Id)
    requires g < |guards|
    ensures Count(guards[g := v], id)
         == Count(guards, id)
            - (if Counted(guards[g].pc) && guards[g].id == id then 1 else 0)
            + (if Counted(v.pc) && v.id == id then 1 else 0)
    decreases g
  {
    var u := guards[g := v];
    if g == 0 {
      assert u[1..] == guards[1..];
    } else {
      assert u[1..] == guards[1..][g - 1 := v];
      CountUpdate(guards[1..], g - 1, v, id);
    }
  }

  lemma {:induction false} CountPositive(guards: seq<Guard>, g: nat)
    requires g < |guards| && Counted(guards[g].pc)
    ensures Count(guards, guards[g].id) > 0
    decreases g
  {
    if g > 0 {
      assert guards[1..][g - 1] == guards[g];
      CountPositive(guards[1..], g - 1);
    }
  }

  lemma {:induction false} CountZero(guards: seq<Guard>, id: Id)
    requires forall g :: 0 <= g < |guards| ==> !Counted(guards[g].pc) || guards[g].id != id
    ensures Count(guards, id) == 0
  {
    if guards != [] {
      CountZero(guards[1..], id);
    }
  }

  /** The guard mutex is held by the guard that believes it holds it, and by no other. */
  ghost predicate GuardLockOk(s: State) {
    && (s.guardLock.Some? ==> s.guardLock.value < |s.guards| && HoldsGuardLock(s.guards[s.guardLock.value].pc))
    && (forall g :: 0 <= g < |s.guards| && HoldsGuardLock(s.guards[g].pc) ==> s.guardLock == Some(g))
  }

  /** No guard's cursor dangles. */
  ghost predicate CursorsOk(s: State) {
    forall g :: 0 <= g < |s.guards| && Touches(s.guards[g].pc) ==>
      s.guards[g].id in s.rel && s.rel[s.guards[g].id].mutex == s.guards[g].mutex
  }

  ghost predicate CountersOk(s: State) {
    && (forall x :: x in s.rel ==> s.rel[x].counter == Count(s.guards, x))
    && (forall g ::
          0 <= g < |s.guards| && (s.guards[g].pc.Last? || s.guards[g].pc.Erasing?) && s.guards[g].id in s.rel ==>
            s.rel[s.guards[g].id].counter == 0)
    && (forall x :: x in s.rel && s.rel[x].counter == 0 ==>
          s.guardLock.Some? && s.guardLock.value < |s.guards|
          && s.guards[s.guardLock.value].id == x
          && (s.guards[s.guardLock.value].pc.Last? || s.guards[s.guardLock.value].pc.Erasing?))
  }

  /** The mutexes alive are exactly those of the entries, one each. */
  ghost predicate MutexesOk(s: State) {
    && (forall x :: x in s.rel ==> s.rel[x].mutex in s.owners && s.rel[x].mutex < s.nextMutex)
    && (forall x, y :: x in s.rel && y in s.rel && s.rel[x].mutex == s.rel[y].mutex ==> x == y)
    && (forall m :: m in s.owners ==> m < s.nextMutex)
  }

  /** An entry mutex is held by the guard that believes it holds it, and by no other. */
  ghost predicate OwnersOk(s: State) {
    && (forall m :: m in s.owners && s.owners[m].Some? ==>
          var g := s.owners[m].value;
          g < |s.guards| && HoldsEntry(s.guards[g].pc) && s.guards[g].mutex == m)
    && (forall g :: 0 <= g < |s.guards| && HoldsEntry(s.guards[g].pc) ==>
          s.guards[g].mutex in s.owners && s.owners[s.guards[g].mutex] == Some(g))
  }

  ghost predicate Inv(s: State) {
    GuardLockOk(s) && CursorsOk(s) && CountersOk(s) && MutexesOk(s) && OwnersOk(s)
  }

  lemma InitInv(s: State)
    requires Init(s)
    ensures Inv(s)
  {
  }

  // Each step keeps the invariant.

  lemma LockGuardInv(s: State, t: State, g: nat)
    requires Inv(s) && g < |s.guards| && LockGuard(s, t, g)
    ensures Inv(t)
  {
    forall x { CountUpdate(s.guards, g, t.guards[g], x); }
  }

  lemma RegisterKnownInv(s: State, t: State, g: nat)
    requires Inv(s) && g < |s.guards| && Register(s, t, g) && s.guards[g].id in s.rel
    ensures Inv(t)
  {
    forall x { CountUpdate(s.guards, g, t.guards[g], x); }
  }

  lemma RegisterNewCounters(s: State, t: State, g: nat)
    requires Inv(s) && g < |s.guards| && Register(s, t, g) && s.guards[g].id !in s.rel
    ensures GuardLockOk(t) && CountersOk(t)
  {
    forall x { CountUpdate(s.guards, g, t.guards[g], x); }
    CountZero(s.guards, s.guards[g].id);
  }

  lemma RegisterNewMutexes(s: State, t: State, g: nat)
    requires Inv(s) && g < |s.guards| && Register(s, t, g) && s.guards[g].id !in s.rel
    ensures CursorsOk(t) && MutexesOk(t) && OwnersOk(t)
  {
  }

  lemma UnlockGuardEarlyInv(s: State, t: State, g: nat)
    requires Inv(s) && g < |s.guards| && UnlockGuardEarly(s, t, g)
    ensures Inv(t)
  {
    forall x { CountUpdate(s.guards, g, t.guards[g], x); }
  }

  lemma LockEntryInv(s: State, t: State, g: nat)
    requires Inv(s) && g < |s.guards| && LockEntry(s, t, g)
    ensures Inv(t)
  {
    forall x { CountUpdate(s.guards, g, t.guards[g], x); }
  }

  lemma DecrementInv(s: State, t: State, g: nat)
    requires Inv(s) && g < |s.guards| && Decrement(s, t, g)
    ensures Inv(t)
  {
    forall x { CountUpdate(s.guards, g, t.guards[g], x); }
  }

  lemma UnlockEntryInv(s: State, t: State, g: nat)
    requires Inv(s) && g < |s.guards| && UnlockEntry(s, t, g)
    ensures Inv(t)
  {
    forall x { CountUpdate(s.guards, g, t.guards[g], x); }
  }

  lemma EraseInv(s: State, t: State, g: nat)
    requires Inv(s) && g < |s.guards| && Erase(s, t, g)
    ensures Inv(t)
  {
    forall x { CountUpdate(s.guards, g, t.guards[g], x); }
    EraseIsLast(s, t, g);
  }

  lemma UnlockReturnsInv(s: State, t: State, g: nat)
    requires Inv(s) && g < |s.guards| && UnlockReturns(s, t, g)
    ensures Inv(t)
  {
    forall x { CountUpdate(s.guards, g, t.guards[g], x); }
  }

  lemma UnlockGuardInv(s: State, t: State, g: nat)
    requires Inv(s) && g < |s.guards| && UnlockGuard(s, t, g)
    ensures Inv(t)
  {
    forall x { CountUpdate(s.guards, g, t.guards[g], x); }
  }

  lemma StepInv(s: State, t: State, g: nat)
    requires Inv(s) && StepOf(s, t, g)
    ensures Inv(t)
  {
    if LockGuard(s, t, g) { LockGuardInv(s, t, g); }
    else if Register(s, t, g) {
      if s.guards[g].id in s.rel {
        RegisterKnownInv(s, t, g);
      } else {
        RegisterNewCounters(s, t, g);
        RegisterNewMutexes(s, t, g);
      }
    }
    else if UnlockGuardEarly(s, t, g) { UnlockGuardEarlyInv(s, t, g); }
    else if LockEntry(s, t, g) { LockEntryInv(s, t, g); }
    else if Decrement(s, t, g) { DecrementInv(s, t, g); }
    else if UnlockEntry(s, t, g) { UnlockEntryInv(s, t, g); }
    else if Erase(s, t, g) { EraseInv(s, t, g); }
    else if UnlockReturns(s, t, g) { UnlockReturnsInv(s, t, g); }
    else { UnlockGuardInv(s, t, g); }
  }

  /** An entry is erased only when its mutex is free, its counter is zero, and no other
      guard waits on it, holds it or can still touch it or its mutex. */
  lemma EraseIsLast(s: State, t: State, g: nat)
    requires Inv(s) && g < |s.guards| && Erase(s, t, g)
    ensures var me := s.guards[g];
            && me.id in s.rel && s.rel[me.id] == Entry(0, me.mutex)
            && me.mutex in s.owners && s.owners[me.mutex] == None
    ensures forall h :: 0 <= h < |s.guards| && h != g && Touches(s.guards[h].pc) ==>
              s.guards[h].id != s.guards[g].id && s.guards[h].mutex != s.guards[g].mutex
  {
    var me := s.guards[g];
    forall h | 0 <= h < |s.guards| && h != g && Touches(s.guards[h].pc)
      ensures s.guards[h].id != me.id && s.guards[h].mutex != me.mutex
    {
      if Counted(s.guards[h].pc) {
        CountPositive(s.guards, h);
      }
    }
  }

  lemma {:induction false} RunInv(run: seq<State>, i: nat)
    requires IsRun(run) && i < |run|
    ensures Inv(run[i]) && |run[i].guards| == |run[0].guards|
    decreases i
  {
    hide StepOf, Inv, Init;
    if i == 0 {
      InitInv(run[0]);
    } else {
      RunInv(run, i - 1);
      assert Step(run[i - 1], run[i - 1 + 1]);
      var g: nat :| StepOf(run[i - 1], run[i], g);
      StepInv(run[i - 1], run[i], g);
      StepShrinks(run[i - 1], run[i], g);
    }
  }

  // ---- What every reachable state satisfies ----

  /** In every state of every run: a counter is the number of guards registered on the id
      and not yet deregistered, the two kinds of mutex exclude, and every guard that can
      still touch its entry has it in the relation. */
  lemma {:induction false} ReachableSafe(run: seq<State>, i: nat)
    requires IsRun(run) && i < |run|
    ensures forall x :: x in run[i].rel ==> run[i].rel[x].counter == Count(run[i].guards, x)
    ensures forall g, h :: 0 <= g < h < |run[i].guards| ==>
              !(HoldsGuardLock(run[i].guards[g].pc) && HoldsGuardLock(run[i].guards[h].pc))
    ensures forall g, h :: 0 <= g < h < |run[i].guards| && run[i].guards[g].id == run[i].guards[h].id ==>
              !(HoldsEntry(run[i].guards[g].pc) && HoldsEntry(run[i].guards[h].pc))
    ensures forall g :: 0 <= g < |run[i].guards| && Touches(run[i].guards[g].pc) ==>
              run[i].guards[g].id in run[i].rel && run[i].guards[g].mutex in run[i].owners
              && run[i].rel[run[i].guards[g].id].mutex == run[i].guards[g].mutex
  {
    RunInv(run, i);
    var s := run[i];
    forall g, h | 0 <= g < h < |s.guards| && s.guards[g].id == s.guards[h].id
      ensures !(HoldsEntry(s.guards[g].pc) && HoldsEntry(s.guards[h].pc))
    {
      if HoldsEntry(s.guards[g].pc) && HoldsEntry(s.guards[h].pc) {
        assert false;
      }
    }
  }

  /** A guard that holds the guard mutex is never blocked. */
  lemma GuardHolderSteps(s: State, g: nat) returns (t: State)
    requires Inv(s) && g < |s.guards| && HoldsGuardLock(s.guards[g].pc)
    ensures StepOf(s, t, g)
  {
    var me := s.guards[g];
    match me.pc
    case Entered =>
      if me.id in s.rel {
        var e := s.rel[me.id];
        t := s.(guards := s.guards[g := Guard(Registered, me.id, e.mutex)],
                rel := s.rel[me.id := Entry(e.counter + 1, e.mutex)]);
      } else {
        var m := s.nextMutex;
        t := s.(guards := s.guards[g := Guard(Registered, me.id, m)],
                rel := s.rel[me.id := Entry(1, m)],
                owners := s.owners[m := None], nextMutex := m + 1);
      }
      assert Register(s, t, g);
    case Registered =>
      t := Moved(s, g, Waiting).(guardLock := None);
      assert UnlockGuardEarly(s, t, g);
    case Cleaning =>
      CountPositive(s.guards, g);
      var e := s.rel[me.id].(counter := s.rel[me.id].counter - 1);
      t := Moved(s, g, if e.counter == 0 then Last else Leaving).(rel := s.rel[me.id := e]);
      assert Decrement(s, t, g);
    case Last =>
      t := Moved(s, g, Erasing).(owners := s.owners[me.mutex := None]);
      assert UnlockEntry(s, t, g);
    case Leaving =>
      t := Moved(s, g, Returning).(owners := s.owners[me.mutex := None]);
      assert UnlockEntry(s, t, g);
    case Erasing =>
      t := Moved(s, g, Dropping).(rel := s.rel - {me.id}, owners := s.owners - {me.mutex});
      assert Erase(s, t, g);
    case Returning =>
      t := Moved(s, g, Dropping);
      assert UnlockReturns(s, t, g);
    case Dropping =>
      t := Moved(s, g, Done).(guardLock := None);
      assert UnlockGuard(s, t, g);
  }

  /** The protocol cannot deadlock: while some guard is unfinished, some guard can step. */
  lemma NoDeadlock(s: State, g: nat) returns (h: nat, t: State)
    requires Inv(s) && g < |s.guards| && s.guards[g].pc != Done
    ensures StepOf(s, t, h)
  {
    if s.guardLock.Some? {
      h := s.guardLock.value;
      t := GuardHolderSteps(s, h);
    } else {
      h := g;
      if s.guards[g].pc == Waiting {
        var m := s.guards[g].mutex;
        if s.owners[m] == None {
          t := Moved(s, g, Live).(owners := s.owners[m := Some(g)]);
          assert LockEntry(s, t, g);
          return;
        }
        // the holder of the entry mutex is past its constructor and can take the guard mutex
        h := s.owners[m].value;
      }
      t := Moved(s, h, if s.guards[h].pc == Start then Entered else Cleaning).(guardLock := Some(h));
      assert LockGuard(s, t, h);
    }
  }

  // ---- Every run ends, and ends clean ----

  function Rank(pc: Pc): nat {
    match pc
    case Start => 10 case Entered => 9 case Registered => 8 case Waiting => 7 case Live => 6
    case Cleaning => 5 case Last => 4 case Leaving => 4 case Erasing => 3 case Returning => 3
    case Dropping => 1 case Done => 0
  }

  function Remaining(guards: seq<Guard>): nat {
    if guards == [] then 0 else Rank(guards[0].pc) + Remaining(guards[1..])
  }

  lemma {:induction false} RemainingUpdate(guards: seq<Guard>, g: nat, v: Guard)
    requires g < |guards|
    ensures Remaining(guards[g := v]) == Remaining(guards) - Rank(guards[g].pc) + Rank(v.pc)
    decreases g
  {
    var u := guards[g := v];
    if g == 0 {
      assert u[1..] == guards[1..];
    } else {
      assert u[1..] == guards[1..][g - 1 := v];
      RemainingUpdate(guards[1..], g - 1, v);
    }
  }

  lemma {:induction false} RemainingInit(guards: seq<Guard>)
    requires forall g :: 0 <= g < |guards| ==> guards[g].pc == Start
    ensures Remaining(guards) == 10 * |guards|
  {
    if guards != [] {
      RemainingInit(guards[1..]);
    }
  }

  /** A step moves one guard forward. */
  lemma StepMoves(s: State, t: State, g: nat) returns (v: Guard)
    requires StepOf(s, t, g)
    ensures t.guards == s.guards[g := v] && Rank(v.pc) < Rank(s.guards[g].pc)
  {
    var me := s.guards[g];
    if Register(s, t, g) {
      v := Guard(Registered, me.id, if me.id in s.rel then s.rel[me.id].mutex else s.nextMutex);
    } else {
      v := me.(pc := t.guards[g].pc);
    }
  }

  lemma StepShrinks(s: State, t: State, g: nat)
    requires StepOf(s, t, g)
    ensures |t.guards| == |s.guards| && Remaining(t.guards) < Remaining(s.guards)
  {
    var v := StepMoves(s, t, g);
    hide StepOf, Rank;
    RemainingUpdate(s.guards, g, v);
  }

  lemma {:induction false} RunShrinks(run: seq<State>, i: nat)
    requires IsRun(run) && i < |run|
    ensures Remaining(run[i].guards) + i <= 10 * |run[0].guards|
    decreases i
  {
    hide StepOf;
    if i == 0 {
      RemainingInit(run[0].guards);
    } else {
      RunShrinks(run, i - 1);
      assert Step(run[i - 1], run[i - 1 + 1]);
      var g: nat :| StepOf(run[i - 1], run[i], g);
      StepShrinks(run[i - 1], run[i], g);
    }
  }

  ghost predicate Stuck(s: State) { forall t :: !Step(s, t) }

  ghost predicate Clean(s: State) {
    && (forall g :: 0 <= g < |s.guards| ==> s.guards[g].pc == Done)
    && s.rel == map[] && s.guardLock == None
  }

  lemma StuckIsClean(s: State)
    requires Inv(s) && Stuck(s)
    ensures Clean(s)
  {
    forall g | 0 <= g < |s.guards| ensures s.guards[g].pc == Done {
      if s.guards[g].pc != Done {
        var h, t := NoDeadlock(s, g);
        assert Step(s, t);
        assert false;
      }
    }
    forall x | x in s.rel ensures false {
      CountZero(s.guards, x);
    }
  }

  /** No run of n guards is longer than ten steps per guard, and a run that cannot be
      extended has finished every guard, released the guard mutex and left the relation
      empty: nothing leaks and nobody waits for ever. */
  lemma {:induction false} RunsComplete(run: seq<State>)
    requires IsRun(run)
    ensures |run| <= 10 * |run[0].guards| + 1
    ensures Stuck(run[|run| - 1]) ==> Clean(run[|run| - 1])
  {
    hide Step, Inv, Stuck, Clean;
    RunShrinks(run, |run| - 1);
    RunInv(run, |run| - 1);
    if Stuck(run[|run| - 1]) {
      StuckIsClean(run[|run| - 1]);
    }
  }
}
