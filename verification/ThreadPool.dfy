/** The worker pool of duckdb_lab/ThreadPool.h: worker threads, any number of threads inside
    `enqueue`, and the destructor, all on one mutex and one condition variable.

    A critical section is one step. A thread that waits on the condition variable is either
    awake, and then about to test its predicate under the mutex, or asleep. `notify_all`, which
    the source always calls after it has released the mutex, is a step of its own; a sleeper
    may also wake without one. */
module ThreadPool {

  /** What is submitted: the callable with its arguments bound. */
  type Task(==, !new)

  datatype Worker =
    | Ready                 // about to test the worker's predicate (line 61)
    | Asleep                // waiting on the condition variable
    | Popped(task: Task)    // took a task, has not yet notified (line 67)
    | Running(task: Task)   // runs it (line 69)
    | Exited                // returned (line 63)

  datatype CallerPc =
    | Trying                // about to test whether the queue has room (line 85)
    | Blocked               // waiting on the condition variable
    | Pushed                // put its task on the queue, has not yet notified (line 92)
    | Accepted              // enqueue returned
    | Rejected              // enqueue threw

  datatype Caller = Caller(task: Task, pc: CallerPc)

  /** Where the destructor stands. `Joining(k)`: the first k workers are joined. */
  datatype Closing = Open | Stopping | Joining(k: nat) | Closed

  /** `stop` is `closing != Open`. The last three fields are history: tasks in the order
      in which they were put on the queue, were taken off it, and returned. */
  datatype Pool = Pool(
    limit: nat,
    workers: seq<Worker>,
    callers: seq<Caller>,
    queue: seq<Task>,
    closing: Closing,
    accepted: seq<Task>,
    taken: seq<Task>,
    finished: seq<Task>)

  function New(n: nat, limit: nat): Pool {
    Pool(limit, seq(n, _ => Ready), [], [], Open, [], [], [])
  }

  // ---- Steps ----

  datatype Act =
    | Take(i: nat) | Sleep(i: nat) | Exit(i: nat) | Notify(i: nat) | Finish(i: nat)
    | Call(task: Task) | Push(j: nat) | Block(j: nat) | Throw(j: nat) | Return(j: nat)
    | Stop | StopNotify | Join
    | WakeWorker(i: nat) | WakeCaller(j: nat)

  predicate WorkerAt(s: Pool, i: nat) { i < |s.workers| }

  predicate CallerAt(s: Pool, j: nat) { j < |s.callers| }

  predicate Enabled(s: Pool, a: Act) {
    match a
    case Take(i) => WorkerAt(s, i) && s.workers[i].Ready? && s.queue != []
    case Sleep(i) => WorkerAt(s, i) && s.workers[i].Ready? && s.queue == [] && s.closing.Open?
    case Exit(i) => WorkerAt(s, i) && s.workers[i].Ready? && s.queue == [] && !s.closing.Open?
    case Notify(i) => WorkerAt(s, i) && s.workers[i].Popped?
    case Finish(i) => WorkerAt(s, i) && s.workers[i].Running?
    case Call(_) => true
    case Push(j) => CallerAt(s, j) && s.callers[j].pc.Trying? && |s.queue| < s.limit && s.closing.Open?
    case Block(j) => CallerAt(s, j) && s.callers[j].pc.Trying? && |s.queue| >= s.limit
    case Throw(j) => CallerAt(s, j) && s.callers[j].pc.Trying? && |s.queue| < s.limit && !s.closing.Open?
    case Return(j) => CallerAt(s, j) && s.callers[j].pc.Pushed?
    case Stop => s.closing.Open?
    case StopNotify => s.closing.Stopping?
    case Join => s.closing.Joining? && (s.closing.k < |s.workers| ==> s.workers[s.closing.k].Exited?)
    case WakeWorker(i) => WorkerAt(s, i) && s.workers[i].Asleep?
    case WakeCaller(j) => CallerAt(s, j) && s.callers[j].pc.Blocked?
  }

  function WokenWorker(w: Worker): Worker { if w.Asleep? then Ready else w }

  function WokenCaller(c: Caller): Caller { if c.pc.Blocked? then c.(pc := Trying) else c }

  /** `notify_all`. */
  function Woken(s: Pool): Pool {
    s.(workers := seq(|s.workers|, i requires 0 <= i < |s.workers| => WokenWorker(s.workers[i])),
       callers := seq(|s.callers|, j requires 0 <= j < |s.callers| => WokenCaller(s.callers[j])))
  }

  function SetWorker(s: Pool, i: nat, w: Worker): Pool
    requires WorkerAt(s, i)
  {
    s.(workers := s.workers[i := w])
  }

  function SetCaller(s: Pool, j: nat, pc: CallerPc): Pool
    requires CallerAt(s, j)
  {
    s.(callers := s.callers[j := s.callers[j].(pc := pc)])
  }

  function Next(s: Pool, a: Act): Pool
    requires Enabled(s, a)
  {
    match a
    case Take(i) =>
      SetWorker(s, i, Popped(s.queue[0])).(queue := s.queue[1..], taken := s.taken + [s.queue[0]])
    case Sleep(i) => SetWorker(s, i, Asleep)
    case Exit(i) => SetWorker(s, i, Exited)
    case Notify(i) => Woken(SetWorker(s, i, Running(s.workers[i].task)))
    case Finish(i) => SetWorker(s, i, Ready).(finished := s.finished + [s.workers[i].task])
    case Call(task) => s.(callers := s.callers + [Caller(task, Trying)])
    case Push(j) =>
      SetCaller(s, j, Pushed).(queue := s.queue + [s.callers[j].task],
                               accepted := s.accepted + [s.callers[j].task])
    case Block(j) => SetCaller(s, j, Blocked)
    case Throw(j) => SetCaller(s, j, Rejected)
    case Return(j) => Woken(SetCaller(s, j, Accepted))
    case Stop => s.(closing := Stopping)
    case StopNotify => Woken(s.(closing := Joining(0)))
    case Join => s.(closing := if s.closing.k < |s.workers| then Joining(s.closing.k + 1) else Closed)
    case WakeWorker(i) => SetWorker(s, i, Ready)
    case WakeCaller(j) => SetCaller(s, j, Trying)
  }

  predicate IsRun(s: Pool, acts: seq<Act>)
    decreases |acts|
  {
    acts == [] || (Enabled(s, acts[0]) && IsRun(Next(s, acts[0]), acts[1..]))
  }

  function After(s: Pool, acts: seq<Act>): Pool
    requires IsRun(s, acts)
    decreases |acts|
  {
    if acts == [] then s else After(Next(s, acts[0]), acts[1..])
  }

  // ---- Sums over the threads ----

  function Bag<A>(s: seq<A>, f: A -> multiset<Task>): multiset<Task> {
    if s == [] then multiset{} else f(s[0]) + Bag(s[1..], f)
  }

  lemma {:induction false} BagUpdate<A>(s: seq<A>, k: nat, v: A, f: A -> multiset<Task>)
    requires k < |s|
    ensures Bag(s[k := v], f) + f(s[k]) == Bag(s, f) + f(v)
  {
    var u := s[k := v];
    if k == 0 {
      assert u[1..] == s[1..];
    } else {
      assert u[1..] == s[1..][k - 1 := v] && s[1..][k - 1] == s[k];
      BagUpdate(s[1..], k - 1, v, f);
      assert (f(s[0]) + Bag(u[1..], f)) + f(s[k]) == f(s[0]) + (Bag(u[1..], f) + f(s[k]));
      assert (f(s[0]) + Bag(s[1..], f)) + f(v) == f(s[0]) + (Bag(s[1..], f) + f(v));
    }
  }

  lemma {:induction false} BagSame<A>(s: seq<A>, t: seq<A>, f: A -> multiset<Task>)
    requires |s| == |t| && forall k :: 0 <= k < |s| ==> f(s[k]) == f(t[k])
    ensures Bag(s, f) == Bag(t, f)
  {
    if s != [] {
      BagSame(s[1..], t[1..], f);
    }
  }

  lemma {:induction false} BagAppend<A>(s: seq<A>, v: A, f: A -> multiset<Task>)
    ensures Bag(s + [v], f) == Bag(s, f) + f(v)
  {
    if s == [] {
      assert s + [v] == [v];
    } else {
      assert (s + [v])[1..] == s[1..] + [v];
      BagAppend(s[1..], v, f);
    }
  }

  lemma {:induction false} BagEmpty<A>(s: seq<A>, f: A -> multiset<Task>)
    requires forall k :: 0 <= k < |s| ==> f(s[k]) == multiset{}
    ensures Bag(s, f) == multiset{}
  {
    if s != [] {
      BagEmpty(s[1..], f);
    }
  }

  function Sum<A>(s: seq<A>, f: A -> nat): nat {
    if s == [] then 0 else f(s[0]) + Sum(s[1..], f)
  }

  lemma {:induction false} SumUpdate<A>(s: seq<A>, k: nat, v: A, f: A -> nat)
    requires k < |s|
    ensures Sum(s[k := v], f) + f(s[k]) == Sum(s, f) + f(v)
  {
    var u := s[k := v];
    if k == 0 {
      assert u[1..] == s[1..];
    } else {
      assert u[1..] == s[1..][k - 1 := v];
      SumUpdate(s[1..], k - 1, v, f);
    }
  }

  lemma {:induction false} SumSame<A>(s: seq<A>, t: seq<A>, f: A -> nat)
    requires |s| == |t| && forall k :: 0 <= k < |s| ==> f(s[k]) == f(t[k])
    ensures Sum(s, f) == Sum(t, f)
  {
    if s != [] {
      SumSame(s[1..], t[1..], f);
    }
  }

  lemma {:induction false} SumBound<A>(s: seq<A>, f: A -> nat, b: nat)
    requires forall k :: 0 <= k < |s| ==> f(s[k]) <= b
    ensures Sum(s, f) <= b * |s|
  {
    if s != [] {
      SumBound(s[1..], f, b);
    }
  }

  // ---- The invariant ----

  /** What the worker has taken off the queue and not finished. */
  function Hand(w: Worker): multiset<Task> {
    if w.Popped? || w.Running? then multiset{w.task} else multiset{}
  }

  /** What the caller has put on the queue. */
  function Given(c: Caller): multiset<Task> {
    if c.pc.Pushed? || c.pc.Accepted? then multiset{c.task} else multiset{}
  }

  ghost predicate QueueOk(s: Pool) { |s.queue| <= s.limit && s.accepted == s.taken + s.queue }

  ghost predicate TasksOk(s: Pool) {
    && multiset(s.taken) == multiset(s.finished) + Bag(s.workers, Hand)
    && multiset(s.accepted) == Bag(s.callers, Given)
  }

  ghost predicate ExitOk(s: Pool) {
    && (forall i :: 0 <= i < |s.workers| && s.workers[i].Exited? ==> s.queue == [] && !s.closing.Open?)
    && (s.closing.Joining? ==>
          s.closing.k <= |s.workers| && forall i :: 0 <= i < s.closing.k ==> s.workers[i].Exited?)
    && (s.closing.Closed? ==> forall i :: 0 <= i < |s.workers| ==> s.workers[i].Exited?)
  }

  /** Some thread is about to call `notify_all`. */
  ghost predicate Pending(s: Pool) {
    || s.closing.Stopping?
    || (exists i :: 0 <= i < |s.workers| && s.workers[i].Popped?)
    || (exists j :: 0 <= j < |s.callers| && s.callers[j].pc.Pushed?)
  }

  /** No lost wakeup: whoever sleeps although its predicate holds will be notified. */
  ghost predicate WakeOk(s: Pool) {
    && (forall i :: 0 <= i < |s.workers| && s.workers[i].Asleep? && (s.queue != [] || !s.closing.Open?) ==> Pending(s))
    && (forall j :: 0 <= j < |s.callers| && s.callers[j].pc.Blocked? && |s.queue| < s.limit ==> Pending(s))
  }

  /** A call is refused only after the destructor has begun. */
  ghost predicate AnswersOk(s: Pool) {
    s.closing.Open? ==> forall j :: 0 <= j < |s.callers| ==> !s.callers[j].pc.Rejected?
  }

  ghost predicate Inv(s: Pool) { QueueOk(s) && TasksOk(s) && ExitOk(s) && WakeOk(s) && AnswersOk(s) }

  lemma NewInv(n: nat, limit: nat)
    ensures Inv(New(n, limit))
  {
    BagEmpty(New(n, limit).workers, Hand);
  }

  lemma Cancel(x: multiset<Task>, y: multiset<Task>, h: multiset<Task>)
    requires x + h == y + h
    ensures x == y
  {
    forall t: Task
      ensures x[t] == y[t]
    {
      assert (x + h)[t] == x[t] + h[t] && (y + h)[t] == y[t] + h[t];
    }
  }

  lemma BagMoved<A>(s: seq<A>, k: nat, v: A, f: A -> multiset<Task>)
    requires k < |s|
    ensures f(s[k]) == f(v) ==> Bag(s[k := v], f) == Bag(s, f)
    ensures f(s[k]) == multiset{} ==> Bag(s[k := v], f) == Bag(s, f) + f(v)
    ensures f(v) == multiset{} ==> Bag(s[k := v], f) + f(s[k]) == Bag(s, f)
  {
    BagUpdate(s, k, v, f);
    hide Bag;
    if f(s[k]) == f(v) {
      Cancel(Bag(s[k := v], f), Bag(s, f), f(v));
    }
    assert Bag(s[k := v], f) + multiset{} == Bag(s[k := v], f) && Bag(s, f) + multiset{} == Bag(s, f);
  }

  lemma WokenTasks(s: Pool)
    ensures Bag(Woken(s).workers, Hand) == Bag(s.workers, Hand)
    ensures Bag(Woken(s).callers, Given) == Bag(s.callers, Given)
  {
    BagSame(Woken(s).workers, s.workers, Hand);
    BagSame(Woken(s).callers, s.callers, Given);
  }

  lemma StepQueue(s: Pool, a: Act)
    requires QueueOk(s) && Enabled(s, a)
    ensures QueueOk(Next(s, a))
  {
  }

  lemma TakeTasks(s: Pool, i: nat)
    requires TasksOk(s) && Enabled(s, Take(i))
    ensures TasksOk(Next(s, Take(i)))
  {
    var x, t := s.queue[0], Next(s, Take(i));
    BagMoved(s.workers, i, Popped(x), Hand);
    assert Hand(Popped(x)) == multiset{x} && Hand(s.workers[i]) == multiset{};
    hide Bag, Hand;
    assert multiset(t.taken) == multiset(s.taken) + multiset{x};
  }

  lemma FinishTasks(s: Pool, i: nat)
    requires TasksOk(s) && Enabled(s, Finish(i))
    ensures TasksOk(Next(s, Finish(i)))
  {
    var x, t := s.workers[i].task, Next(s, Finish(i));
    BagMoved(s.workers, i, Ready, Hand);
    assert Hand(Ready) == multiset{} && Hand(s.workers[i]) == multiset{x};
    hide Bag, Hand;
    assert multiset(t.finished) == multiset(s.finished) + multiset{x};
  }

  lemma PushTasks(s: Pool, j: nat)
    requires TasksOk(s) && Enabled(s, Push(j))
    ensures TasksOk(Next(s, Push(j)))
  {
    var x, t := s.callers[j].task, Next(s, Push(j));
    BagMoved(s.callers, j, s.callers[j].(pc := Pushed), Given);
    assert Given(s.callers[j]) == multiset{} && Given(t.callers[j]) == multiset{x};
    hide Bag, Given;
    assert multiset(t.accepted) == multiset(s.accepted) + multiset{x};
  }

  lemma CallTasks(s: Pool, task: Task)
    requires TasksOk(s)
    ensures TasksOk(Next(s, Call(task)))
  {
    BagAppend(s.callers, Caller(task, Trying), Given);
  }

  /** A worker's step that leaves its task alone. */
  lemma WorkerTasks(s: Pool, i: nat, w: Worker)
    requires TasksOk(s) && WorkerAt(s, i) && Hand(s.workers[i]) == Hand(w)
    ensures TasksOk(SetWorker(s, i, w)) && TasksOk(Woken(SetWorker(s, i, w)))
  {
    BagMoved(s.workers, i, w, Hand);
    WokenTasks(SetWorker(s, i, w));
    hide Bag;
  }

  /** A caller's step that leaves its task alone. */
  lemma CallerTasks(s: Pool, j: nat, pc: CallerPc)
    requires TasksOk(s) && CallerAt(s, j) && Given(s.callers[j]) == Given(s.callers[j].(pc := pc))
    ensures TasksOk(SetCaller(s, j, pc)) && TasksOk(Woken(SetCaller(s, j, pc)))
  {
    BagMoved(s.callers, j, s.callers[j].(pc := pc), Given);
    WokenTasks(SetCaller(s, j, pc));
    hide Bag;
  }

  lemma ClosingTasks(s: Pool, c: Closing)
    requires TasksOk(s)
    ensures TasksOk(s.(closing := c)) && TasksOk(Woken(s.(closing := c)))
  {
    WokenTasks(s.(closing := c));
    hide Bag;
  }

  lemma OtherTasks(s: Pool, a: Act)
    requires TasksOk(s) && Enabled(s, a) && (a.Call? || a.Stop? || a.StopNotify? || a.Join?)
    ensures TasksOk(Next(s, a))
  {
    hide TasksOk, Woken;
    if a.Call? {
      CallTasks(s, a.task);
    } else {
      ClosingTasks(s, if a.Stop? then Stopping else if a.StopNotify? then Joining(0) else Next(s, a).closing);
    }
  }

  lemma KeptByWorker(s: Pool, a: Act)
    requires TasksOk(s) && Enabled(s, a) && (a.Sleep? || a.Exit? || a.Notify? || a.WakeWorker?)
    ensures TasksOk(Next(s, a))
  {
    hide TasksOk, Woken;
    var i := a.i;
    WorkerTasks(s, i, match a
                      case Sleep(_) => Asleep
                      case Exit(_) => Exited
                      case Notify(_) => Running(s.workers[i].task)
                      case _ => Ready);
  }

  lemma KeptByCaller(s: Pool, a: Act)
    requires TasksOk(s) && Enabled(s, a) && (a.Block? || a.Throw? || a.Return? || a.WakeCaller?)
    ensures TasksOk(Next(s, a))
  {
    hide TasksOk, Woken;
    CallerTasks(s, a.j, match a
                        case Block(_) => Blocked
                        case Throw(_) => Rejected
                        case Return(_) => Accepted
                        case _ => Trying);
  }

  lemma StepTasks(s: Pool, a: Act)
    requires TasksOk(s) && Enabled(s, a)
    ensures TasksOk(Next(s, a))
  {
    hide TasksOk, Next, Enabled;
    match a
    case Take(i) => TakeTasks(s, i);
    case Finish(i) => FinishTasks(s, i);
    case Push(j) => PushTasks(s, j);
    case Call(_) => OtherTasks(s, a);
    case Stop => OtherTasks(s, a);
    case StopNotify => OtherTasks(s, a);
    case Join => OtherTasks(s, a);
    case Sleep(_) => KeptByWorker(s, a);
    case Exit(_) => KeptByWorker(s, a);
    case Notify(_) => KeptByWorker(s, a);
    case WakeWorker(_) => KeptByWorker(s, a);
    case _ => KeptByCaller(s, a);
  }

  lemma StepExit(s: Pool, a: Act)
    requires ExitOk(s) && Enabled(s, a)
    ensures ExitOk(Next(s, a))
  {
  }

  lemma StepWake(s: Pool, a: Act)
    requires WakeOk(s) && Enabled(s, a)
    ensures WakeOk(Next(s, a))
  {
    var t := Next(s, a);
    if Pending(s) && !a.Notify? && !a.Return? && !a.StopNotify? {
      PendingStays(s, a);
    } else if a.Take? {
      assert t.workers[a.i].Popped?;
    } else if a.Push? {
      assert t.callers[a.j].pc.Pushed?;
    }
  }

  lemma PendingStays(s: Pool, a: Act)
    requires Pending(s) && Enabled(s, a) && !a.Notify? && !a.Return? && !a.StopNotify?
    ensures Pending(Next(s, a))
  {
    var t := Next(s, a);
    if i :| 0 <= i < |s.workers| && s.workers[i].Popped? {
      assert t.workers[i].Popped?;
    } else if j :| 0 <= j < |s.callers| && s.callers[j].pc.Pushed? {
      assert t.callers[j].pc.Pushed?;
    }
  }

  lemma StepAnswers(s: Pool, a: Act)
    requires AnswersOk(s) && Enabled(s, a)
    ensures AnswersOk(Next(s, a))
  {
  }

  lemma StepInv(s: Pool, a: Act)
    requires Inv(s) && Enabled(s, a)
    ensures Inv(Next(s, a))
  {
    hide QueueOk, TasksOk, ExitOk, WakeOk, AnswersOk, Enabled, Next;
    StepAnswers(s, a);
    StepQueue(s, a);
    StepTasks(s, a);
    StepExit(s, a);
    StepWake(s, a);
  }

  lemma {:induction false} RunInv(s: Pool, acts: seq<Act>)
    requires Inv(s) && IsRun(s, acts)
    ensures Inv(After(s, acts)) && |After(s, acts).workers| == |s.workers| && After(s, acts).limit == s.limit
    decreases |acts|
  {
    hide Inv;
    if acts != [] {
      StepInv(s, acts[0]);
      RunInv(Next(s, acts[0]), acts[1..]);
    }
  }

  // ---- What every run keeps ----

  /** The queue is bounded; tasks leave it in the order in which they were accepted; every
      accepted task is in exactly one place (queued, in a worker's hands, or finished); and
      the accepted tasks are those of the callers whose `enqueue` got through; and none is
      refused while the pool is open. */
  lemma ReachableSafe(n: nat, limit: nat, acts: seq<Act>)
    requires IsRun(New(n, limit), acts)
    ensures var s := After(New(n, limit), acts);
            && |s.queue| <= limit
            && s.accepted == s.taken + s.queue
            && multiset(s.accepted) == multiset(s.queue) + Bag(s.workers, Hand) + multiset(s.finished)
            && multiset(s.accepted) == Bag(s.callers, Given)
            && (forall j :: 0 <= j < |s.callers| && s.callers[j].pc.Rejected? ==> !s.closing.Open?)
  {
    NewInv(n, limit);
    RunInv(New(n, limit), acts);
    var s := After(New(n, limit), acts);
    assert multiset(s.taken + s.queue) == multiset(s.taken) + multiset(s.queue);
  }

  ghost predicate AllExited(s: Pool) { forall i :: 0 <= i < |s.workers| ==> s.workers[i].Exited? }

  ghost predicate AllAsleep(s: Pool) { forall i :: 0 <= i < |s.workers| ==> s.workers[i].Asleep? }

  lemma StoppedStays(s: Pool, a: Act)
    requires !s.closing.Open? && Enabled(s, a)
    ensures !Next(s, a).closing.Open? && Next(s, a).accepted == s.accepted
  {
  }

  lemma {:induction false} NothingAccepted(s: Pool, acts: seq<Act>)
    requires !s.closing.Open? && IsRun(s, acts)
    ensures After(s, acts).accepted == s.accepted
    decreases |acts|
  {
    if acts != [] {
      StoppedStays(s, acts[0]);
      NothingAccepted(Next(s, acts[0]), acts[1..]);
    }
  }

  /** Once every worker has returned, and so whenever the destructor has, every accepted task
      has been run, and none is accepted later. */
  lemma Drained(n: nat, limit: nat, acts: seq<Act>, more: seq<Act>)
    requires n >= 1 && IsRun(New(n, limit), acts) && AllExited(After(New(n, limit), acts))
    requires IsRun(After(New(n, limit), acts), more)
    ensures var s := After(New(n, limit), acts);
            && s.queue == [] && s.taken == s.accepted && multiset(s.finished) == multiset(s.accepted)
            && After(s, more).accepted == s.accepted
  {
    hide IsRun, After;
    NewInv(n, limit);
    RunInv(New(n, limit), acts);
    var s := After(New(n, limit), acts);
    assert s.workers[0].Exited?;
    BagEmpty(s.workers, Hand);
    NothingAccepted(s, more);
  }

  lemma ClosedExited(n: nat, limit: nat, acts: seq<Act>)
    requires IsRun(New(n, limit), acts) && After(New(n, limit), acts).closing.Closed?
    ensures AllExited(After(New(n, limit), acts))
  {
    NewInv(n, limit);
    RunInv(New(n, limit), acts);
  }

  // ---- Progress ----

  /** Steps that a thread of the pool takes by itself: not a new call, not the start of the
      destructor, not a spurious wakeup. */
  predicate Own(a: Act) { !(a.Call? || a.Stop? || a.WakeWorker? || a.WakeCaller?) }

  ghost predicate Quiet(s: Pool) { forall a :: Own(a) ==> !Enabled(s, a) }

  /** What a caller submitted. */
  function Submitted(c: Caller): multiset<Task> { multiset{c.task} }

  /** Nothing left to do: every call has returned or, if the pool was stopped, thrown; every
      accepted task has run; and either the pool is open, all tasks ever submitted have run and all
      workers are asleep, or the destructor is through. */
  ghost predicate Settled(s: Pool) {
    && (forall j :: 0 <= j < |s.callers| ==>
          s.callers[j].pc.Accepted? || (s.callers[j].pc.Rejected? && !s.closing.Open?))
    && (s.closing.Open? ==> multiset(s.finished) == Bag(s.callers, Submitted))
    && s.queue == [] && multiset(s.finished) == multiset(s.accepted)
    && ((s.closing.Open? && AllAsleep(s)) || (s.closing.Closed? && AllExited(s)))
  }

  lemma {:induction false} AllGiven(callers: seq<Caller>)
    requires forall j :: 0 <= j < |callers| ==> callers[j].pc.Accepted?
    ensures Bag(callers, Given) == Bag(callers, Submitted)
  {
    if callers != [] {
      AllGiven(callers[1..]);
    }
  }

  lemma WorkerActs(s: Pool, i: nat) returns (a: Act)
    requires WorkerAt(s, i) && !s.workers[i].Asleep? && !s.workers[i].Exited?
    ensures Own(a) && Enabled(s, a)
  {
    a := match s.workers[i]
         case Popped(_) => Notify(i)
         case Running(_) => Finish(i)
         case _ => if s.queue != [] then Take(i) else if s.closing.Open? then Sleep(i) else Exit(i);
  }

  lemma CallerActs(s: Pool, j: nat) returns (a: Act)
    requires CallerAt(s, j) && (s.callers[j].pc.Trying? || s.callers[j].pc.Pushed?)
    ensures Own(a) && Enabled(s, a)
  {
    a := if s.callers[j].pc.Pushed? then Return(j)
         else if |s.queue| >= s.limit then Block(j)
         else if s.closing.Open? then Push(j) else Throw(j);
  }

  /** A thread that is about to notify can always do so. */
  lemma PendingActs(s: Pool) returns (a: Act)
    requires Pending(s)
    ensures Own(a) && Enabled(s, a)
  {
    if s.closing.Stopping? {
      a := StopNotify;
    } else if i :| 0 <= i < |s.workers| && s.workers[i].Popped? {
      a := Notify(i);
    } else {
      var j :| 0 <= j < |s.callers| && s.callers[j].pc.Pushed?;
      a := Return(j);
    }
  }

  /** In a quiet state every thread sleeps or is through, for a good reason. */
  lemma QuietThreads(s: Pool)
    requires Quiet(s)
    ensures !Pending(s)
    ensures forall i :: 0 <= i < |s.workers| ==> s.workers[i].Asleep? || s.workers[i].Exited?
    ensures forall j :: 0 <= j < |s.callers| ==> !s.callers[j].pc.Trying? && !s.callers[j].pc.Pushed?
  {
    hide Enabled, Pending;
    if Pending(s) {
      var a := PendingActs(s);
    }
    forall i | 0 <= i < |s.workers|
      ensures s.workers[i].Asleep? || s.workers[i].Exited?
    {
      if !s.workers[i].Asleep? && !s.workers[i].Exited? {
        var a := WorkerActs(s, i);
      }
    }
    forall j | 0 <= j < |s.callers|
      ensures !s.callers[j].pc.Trying? && !s.callers[j].pc.Pushed?
    {
      if s.callers[j].pc.Trying? || s.callers[j].pc.Pushed? {
        var a := CallerActs(s, j);
      }
    }
  }

  /** No deadlock: with a worker and room for a task, the pool can only stop when settled. */
  lemma QuietIsSettled(s: Pool)
    requires Inv(s) && Quiet(s) && |s.workers| >= 1 && s.limit >= 1
    ensures Settled(s)
  {
    QuietThreads(s);
    hide Pending;
    BagEmpty(s.workers, Hand);
    var w := s.workers[0];
    assert w.Asleep? || w.Exited?;
    assert s.queue == [];
    if s.closing.Open? {
      AllGiven(s.callers);
    }
    assert !s.closing.Stopping? by {
      assert Own(StopNotify);
    }
    assert !(s.closing.Joining? && Enabled(s, Join)) by {
      assert Own(Join);
    }
  }

  // ---- Every run of own steps ends ----

  /** Calls of `notify_all` still to come. */
  function WorkerNotices(w: Worker): nat { if w.Popped? then 1 else 0 }

  function CallerNotices(c: Caller): nat {
    if c.pc.Trying? || c.pc.Blocked? then 2 else if c.pc.Pushed? then 1 else 0
  }

  function Notices(s: Pool): nat {
    Sum(s.workers, WorkerNotices) + Sum(s.callers, CallerNotices) + |s.queue| + if s.closing.Stopping? then 1 else 0
  }

  /** Steps that threads can take before the next `notify_all`. */
  function WorkerWork(w: Worker): nat { if w.Running? then 3 else if w.Ready? then 2 else 0 }

  function CallerWork(c: Caller): nat { if c.pc.Trying? then 1 else 0 }

  function JoinWork(s: Pool): nat {
    if s.closing.Joining? && s.closing.k <= |s.workers| then |s.workers| - s.closing.k + 1 else 0
  }

  function Work(s: Pool): nat {
    Sum(s.workers, WorkerWork) + Sum(s.callers, CallerWork) + JoinWork(s)
  }

  function Width(s: Pool): nat { 4 * |s.workers| + |s.callers| + 2 }

  /** No run of own steps from `s` is longer. */
  function Fuel(s: Pool): nat { Notices(s) * Width(s) + Work(s) }

  lemma WorkBelowWidth(s: Pool)
    ensures Work(s) < Width(s)
  {
    SumBound(s.workers, WorkerWork, 3);
    SumBound(s.callers, CallerWork, 1);
  }

  lemma SetWorkerSums(s: Pool, i: nat, w: Worker)
    requires WorkerAt(s, i)
    ensures var t := SetWorker(s, i, w);
            && Sum(t.workers, WorkerNotices) + WorkerNotices(s.workers[i])
                 == Sum(s.workers, WorkerNotices) + WorkerNotices(w)
            && Sum(t.workers, WorkerWork) + WorkerWork(s.workers[i]) == Sum(s.workers, WorkerWork) + WorkerWork(w)
  {
    SumUpdate(s.workers, i, w, WorkerNotices);
    SumUpdate(s.workers, i, w, WorkerWork);
  }

  lemma SetCallerSums(s: Pool, j: nat, pc: CallerPc)
    requires CallerAt(s, j)
    ensures var t, old0, new0 := SetCaller(s, j, pc), s.callers[j], s.callers[j].(pc := pc);
            && Sum(t.callers, CallerNotices) + CallerNotices(old0)
                 == Sum(s.callers, CallerNotices) + CallerNotices(new0)
            && Sum(t.callers, CallerWork) + CallerWork(old0) == Sum(s.callers, CallerWork) + CallerWork(new0)
  {
    SumUpdate(s.callers, j, s.callers[j].(pc := pc), CallerNotices);
    SumUpdate(s.callers, j, s.callers[j].(pc := pc), CallerWork);
  }

  lemma WokenNotices(s: Pool)
    ensures Notices(Woken(s)) == Notices(s)
  {
    SumSame(Woken(s).workers, s.workers, WorkerNotices);
    SumSame(Woken(s).callers, s.callers, CallerNotices);
  }

  ghost predicate Shrinks(s: Pool, t: Pool) {
    Notices(t) < Notices(s) || (Notices(t) == Notices(s) && Work(t) < Work(s))
  }

  lemma WorkerShrinks(s: Pool, a: Act, i: nat)
    requires Enabled(s, a) && (a == Take(i) || a == Sleep(i) || a == Exit(i) || a == Notify(i) || a == Finish(i))
    ensures Shrinks(s, Next(s, a))
  {
    var w := match a
             case Take(_) => Popped(s.queue[0]) case Sleep(_) => Asleep case Exit(_) => Exited
             case Notify(_) => Running(s.workers[i].task) case _ => Ready;
    SetWorkerSums(s, i, w);
    WokenNotices(SetWorker(s, i, w));
    hide Sum;
  }

  lemma CallerShrinks(s: Pool, a: Act, j: nat)
    requires Enabled(s, a) && (a == Push(j) || a == Block(j) || a == Throw(j) || a == Return(j))
    ensures Shrinks(s, Next(s, a))
  {
    var pc := match a
              case Push(_) => Pushed case Block(_) => Blocked case Throw(_) => Rejected case _ => Accepted;
    SetCallerSums(s, j, pc);
    WokenNotices(SetCaller(s, j, pc));
    hide Sum;
  }

  /** Every own step uses up a notice, or leaves them alone and uses up work. */
  lemma OwnShrinks(s: Pool, a: Act)
    requires ExitOk(s) && Enabled(s, a) && Own(a)
    ensures Shrinks(s, Next(s, a))
  {
    if a.StopNotify? {
      WokenNotices(s.(closing := Joining(0)));
    } else if a.Push? || a.Block? || a.Throw? || a.Return? {
      CallerShrinks(s, a, a.j);
    } else if !a.Join? {
      WorkerShrinks(s, a, a.i);
    }
  }

  lemma {:induction false} MulMono(a: nat, b: nat, width: nat)
    requires a <= b
    ensures a * width <= b * width
    decreases b - a
  {
    if a < b {
      MulMono(a, b - 1, width);
    }
  }

  lemma Lexicographic(n': nat, w': nat, n: nat, w: nat, width: nat)
    requires w' < width && (n' < n || (n' == n && w' < w))
    ensures n' * width + w' < n * width + w
  {
    if n' < n {
      MulMono(n' + 1, n, width);
    }
  }

  lemma FuelShrinks(s: Pool, a: Act)
    requires ExitOk(s) && Enabled(s, a) && Own(a)
    ensures Fuel(Next(s, a)) < Fuel(s)
  {
    hide Notices, Work, ExitOk;
    var t := Next(s, a);
    OwnShrinks(s, a);
    WorkBelowWidth(t);
    Lexicographic(Notices(t), Work(t), Notices(s), Work(s), Width(s));
  }

  /** Left to itself the pool comes to rest, after at most `Fuel` steps whatever the order. */
  lemma {:induction false} OwnRunBound(s: Pool, acts: seq<Act>)
    requires Inv(s) && IsRun(s, acts) && forall k :: 0 <= k < |acts| ==> Own(acts[k])
    ensures |acts| <= Fuel(s)
    decreases |acts|
  {
    hide Inv, Fuel, Own;
    if acts != [] {
      FuelLess(s, acts[0]);
      StepInv(s, acts[0]);
      OwnRunBound(Next(s, acts[0]), acts[1..]);
    }
  }

  lemma FuelLess(s: Pool, a: Act)
    requires Inv(s) && Enabled(s, a) && Own(a)
    ensures Fuel(Next(s, a)) < Fuel(s)
  {
    FuelShrinks(s, a);
  }

  lemma {:induction false} ComesToRest(s: Pool) returns (acts: seq<Act>)
    requires Inv(s)
    ensures IsRun(s, acts) && (forall k :: 0 <= k < |acts| ==> Own(acts[k])) && Quiet(After(s, acts))
    decreases Fuel(s)
  {
    hide Inv, Fuel, Own, Enabled, Next;
    acts := [];
    if a :| Own(a) && Enabled(s, a) {
      FuelLess(s, a);
      StepInv(s, a);
      var rest := ComesToRest(Next(s, a));
      acts := [a] + rest;
      assert acts[1..] == rest;
    }
  }

  // ---- When the pool completes ----

  ghost predicate Completes(n: nat, limit: nat) {
    forall acts :: IsRun(New(n, limit), acts) && Quiet(After(New(n, limit), acts)) ==>
      Settled(After(New(n, limit), acts))
  }

  /** A pool without workers accepts a task and never runs it. */
  lemma NoWorkers(limit: nat, x: Task)
    requires limit >= 1
    ensures !Completes(0, limit)
  {
    var s0 := New(0, limit);
    var s1 := Next(s0, Call(x));
    var s2 := Next(s1, Push(0));
    var s3 := Next(s2, Return(0));
    RunOf3(s0, Call(x), Push(0), Return(0));
    assert s3.callers[0].pc == Accepted && s3.queue == [x];
    assert Quiet(s3);
  }

  lemma RunOf3(s: Pool, a: Act, b: Act, c: Act)
    requires Enabled(s, a) && Enabled(Next(s, a), b) && Enabled(Next(Next(s, a), b), c)
    ensures IsRun(s, [a, b, c]) && After(s, [a, b, c]) == Next(Next(Next(s, a), b), c)
  {
    hide Enabled, Next;
    var s1 := Next(s, a);
    var s2 := Next(s1, b);
    var s3 := Next(s2, c);
    assert IsRun(s3, []) && After(s3, []) == s3;
    assert [c][1..] == [] && [b, c][1..] == [c] && [a, b, c][1..] == [b, c];
    assert IsRun(s2, [c]) && After(s2, [c]) == s3;
    assert IsRun(s1, [b, c]) && After(s1, [b, c]) == s3;
  }

  /** Without room for a single task no call ever gets through. */
  lemma {:induction false} CallerStays(s: Pool, acts: seq<Act>, j: nat)
    requires s.limit == 0 && IsRun(s, acts) && CallerAt(s, j) && (s.callers[j].pc.Trying? || s.callers[j].pc.Blocked?)
    ensures CallerAt(After(s, acts), j)
    ensures After(s, acts).callers[j].pc.Trying? || After(s, acts).callers[j].pc.Blocked?
    decreases |acts|
  {
    if acts != [] {
      CallerStays(Next(s, acts[0]), acts[1..], j);
    }
  }

  lemma NoRoom(n: nat, x: Task)
    ensures !Completes(n, 0)
  {
    var s0 := New(n, 0);
    var s1 := Next(s0, Call(x));
    NewInv(n, 0);
    StepInv(s0, Call(x));
    var rest := ComesToRest(s1);
    CallerStays(s1, rest, 0);
    var acts := [Call(x)] + rest;
    assert acts[1..] == rest;
    assert IsRun(s0, acts) && After(s0, acts) == After(s1, rest);
  }

  /** Calls return, accepted tasks run and the destructor finishes exactly when the pool was
      given at least one worker and room for at least one task. */
  lemma CompletesIff(n: nat, limit: nat, x: Task)
    ensures Completes(n, limit) <==> n >= 1 && limit >= 1
  {
    if limit == 0 {
      NoRoom(n, x);
    } else if n == 0 {
      NoWorkers(limit, x);
    } else {
      forall acts | IsRun(New(n, limit), acts) && Quiet(After(New(n, limit), acts))
        ensures Settled(After(New(n, limit), acts))
      {
        NewInv(n, limit);
        RunInv(New(n, limit), acts);
        QuietIsSettled(After(New(n, limit), acts));
      }
    }
  }
}
