/** What becomes of every task that is submitted to the pool of module ThreadPool
    (duckdb_lab/ThreadPool.h:73-106), over whole runs. */
module ThreadPoolRuns {
  import opened ThreadPool

  /** The tasks of the calls of enqueue, in their order. */
  function Calls(acts: seq<Act>): seq<Task> {
    if acts == [] then []
    else (if acts[0].Call? then [acts[0].task] else []) + Calls(acts[1..])
  }

  function TasksOf(callers: seq<Caller>): seq<Task> {
    seq(|callers|, j requires 0 <= j < |callers| => callers[j].task)
  }

  lemma StepCallers(s: Pool, a: Act)
    requires Enabled(s, a)
    ensures TasksOf(Next(s, a).callers) == TasksOf(s.callers) + Calls([a])
  {
    assert [a][1..] == [];
  }

  lemma {:induction false} CallersAreCalls(s: Pool, acts: seq<Act>)
    requires IsRun(s, acts)
    ensures TasksOf(After(s, acts).callers) == TasksOf(s.callers) + Calls(acts)
    decreases |acts|
  {
    hide Enabled, Next, TasksOf;
    if acts != [] {
      var one := Calls([acts[0]]);
      assert [acts[0]][1..] == [];
      StepCallers(s, acts[0]);
      CallersAreCalls(Next(s, acts[0]), acts[1..]);
      assert TasksOf(s.callers) + (one + Calls(acts[1..])) == (TasksOf(s.callers) + one) + Calls(acts[1..]);
    }
  }

  lemma {:induction false} BagOfTasks(callers: seq<Caller>)
    ensures Bag(callers, Submitted) == multiset(TasksOf(callers))
  {
    if callers != [] {
      BagOfTasks(callers[1..]);
      assert TasksOf(callers) == [callers[0].task] + TasksOf(callers[1..]);
    }
  }

  /** What a call that threw had submitted. */
  function Refused(c: Caller): multiset<Task> { if c.pc.Rejected? then multiset{c.task} else multiset{} }

  /** What a call submitted that has neither got through nor thrown. */
  function Undecided(c: Caller): multiset<Task> {
    if c.pc.Trying? || c.pc.Blocked? then multiset{c.task} else multiset{}
  }

  lemma OnePart(c: Caller)
    ensures Submitted(c) == Given(c) + Refused(c) + Undecided(c)
  {
  }

  lemma {:induction false} BagParts(callers: seq<Caller>)
    ensures Bag(callers, Submitted) == Bag(callers, Given) + Bag(callers, Refused) + Bag(callers, Undecided)
  {
    if callers != [] {
      BagParts(callers[1..]);
      OnePart(callers[0]);
      hide Submitted, Given, Refused, Undecided;
    }
  }

  /** In every state of every run each task that was ever submitted is in exactly one place: on
      the queue, in a worker's hands, run, refused with its call, or with a call not yet decided. */
  lemma NothingLost(n: nat, limit: nat, acts: seq<Act>)
    requires IsRun(New(n, limit), acts)
    ensures var s := After(New(n, limit), acts);
            multiset(Calls(acts)) == multiset(s.queue) + Bag(s.workers, Hand) + multiset(s.finished)
                                     + Bag(s.callers, Refused) + Bag(s.callers, Undecided)
  {
    hide IsRun, After, Bag, Calls;
    var s := After(New(n, limit), acts);
    ReachableSafe(n, limit, acts);
    CallersAreCalls(New(n, limit), acts);
    assert TasksOf(s.callers) == Calls(acts);
    BagOfTasks(s.callers);
    BagParts(s.callers);
  }

  lemma StepOpen(s: Pool, a: Act)
    requires Enabled(s, a)
    ensures Next(s, a).closing.Open? <==> s.closing.Open? && a != Stop
  {
  }

  lemma {:induction false} OpenIff(s: Pool, acts: seq<Act>)
    requires IsRun(s, acts)
    ensures After(s, acts).closing.Open? <==> s.closing.Open? && Stop !in acts
    decreases |acts|
  {
    hide Enabled, Next;
    if acts != [] {
      StepOpen(s, acts[0]);
      OpenIff(Next(s, acts[0]), acts[1..]);
    }
  }

  lemma NoneUndecided(callers: seq<Caller>)
    requires forall j :: 0 <= j < |callers| ==> callers[j].pc.Accepted? || callers[j].pc.Rejected?
    ensures Bag(callers, Undecided) == multiset{}
  {
    BagEmpty(callers, Undecided);
  }

  /** When a pool with a worker and room for a task has come to rest, each task submitted has run
      once or its call has thrown; and if the destructor was never started, all have run. */
  lemma AllRun(n: nat, limit: nat, acts: seq<Act>)
    requires n >= 1 && limit >= 1 && IsRun(New(n, limit), acts) && Quiet(After(New(n, limit), acts))
    ensures var s := After(New(n, limit), acts);
            && multiset(Calls(acts)) == multiset(s.finished) + Bag(s.callers, Refused)
            && (Stop !in acts ==>
                  && multiset(s.finished) == multiset(Calls(acts))
                  && forall j :: 0 <= j < |s.callers| ==> s.callers[j].pc.Accepted?)
  {
    hide IsRun, After, Bag, Calls, Quiet, Enabled, Next;
    var s := After(New(n, limit), acts);
    NewInv(n, limit);
    RunInv(New(n, limit), acts);
    QuietIsSettled(s);
    NothingLost(n, limit, acts);
    OpenIff(New(n, limit), acts);
    NoneUndecided(s.callers);
    BagEmpty(s.workers, Hand);
    if s.closing.Open? {
      BagEmpty(s.callers, Refused);
    }
  }

  /** A sleeping worker or caller may wake at any moment, with or without a notification, and then
      tests its predicate again. */
  lemma SleepersMayWake(s: Pool, i: nat, j: nat)
    ensures Enabled(s, WakeWorker(i)) <==> WorkerAt(s, i) && s.workers[i].Asleep?
    ensures Enabled(s, WakeCaller(j)) <==> CallerAt(s, j) && s.callers[j].pc.Blocked?
    ensures Enabled(s, WakeWorker(i)) ==> Next(s, WakeWorker(i)) == SetWorker(s, i, Ready)
    ensures Enabled(s, WakeCaller(j)) ==> Next(s, WakeCaller(j)) == SetCaller(s, j, Trying)
  {
  }

  /** A call about to test the queue waits exactly if the queue is full; otherwise its task goes to
      the end of the queue if the pool is open, and it throws if not. */
  lemma EnqueueOutcome(s: Pool, a: Act, j: nat)
    requires Enabled(s, a) && CallerAt(s, j) && s.callers[j].pc.Trying?
    ensures CallerAt(Next(s, a), j)
    ensures var t, full, open := Next(s, a), |s.queue| >= s.limit, s.closing.Open?;
            !t.callers[j].pc.Trying? ==>
              && (t.callers[j].pc.Blocked? <==> full)
              && (t.callers[j].pc.Pushed? <==> !full && open)
              && (t.callers[j].pc.Rejected? <==> !full && !open)
              && t.queue == if !full && open then s.queue + [s.callers[j].task] else s.queue
  {
  }
}
