/** The thread pool as an interleaving of atomic sections.

    Workers, callers of `enqueue` and the destructor interact only under the pool's mutex and
    through its condition variable.  The sections under the mutex are the methods of `ThreadPool`;
    a run of the pool is any interleaving of them with notifications, spurious wake-ups and task
    completions. */
module ThreadPools {

  /** A task is known by a number; the same callable may be enqueued again. */
  type Task = nat

  /** A worker is contending for the mutex, blocked in `condition.wait`, running a task outside
      the mutex, or has returned. */
  datatype Worker = Awake | Blocked | Running(task: Task) | Exited

  /** The pool, the notifications its callers still owe, and the history of its tasks. */
  datatype Pool = Pool(
    tasks: seq<Task>,
    stop: bool,
    queueSize: int,
    workers: seq<Worker>,
    owedNotifies: nat,
    owedNotifyAll: bool,
    accepted: seq<Task>,
    started: seq<Task>,
    finished: multiset<Task>,
    largestBound: nat)

  const SIZE_T_RANGE := 0x1_0000_0000_0000_0000

  /** `tasks.size() < _queue_size` compares as `size_t`, so a negative size is a huge one. */
  function Bound(queueSize: int): (r: int) {
    if queueSize >= 0 then queueSize else queueSize + SIZE_T_RANGE
  }

  // ---------------------------------------------------------------- sections under the mutex

  datatype Admission = Admitted | PoolStopped | QueueFull

  datatype Turn = Wait | Return | Take(task: Task)

  function Admit(tasks: seq<Task>, stop: bool, queueSize: int): (r: Admission) {
    if stop then PoolStopped else if |tasks| < Bound(queueSize) then Admitted else QueueFull
  }

  function WorkerTurn(tasks: seq<Task>, stop: bool): (r: Turn) {
    if !stop && tasks == [] then Wait else if tasks == [] then Return else Take(tasks[0])
  }

  class ThreadPool {
    var tasks: seq<Task>
    var stop: bool
    var queueSize: int

    constructor (queueSize: int)
      ensures tasks == [] && !stop && this.queueSize == queueSize
    {
      tasks, stop, this.queueSize := [], false, queueSize;
    }

    /** The part of `enqueue` under the mutex. */
    method Enqueue(task: Task) returns (r: Admission)
      modifies this`tasks
      ensures r == Admit(old(tasks), stop, queueSize)
      ensures r.PoolStopped? <==> stop
      ensures r.Admitted? <==>
        !stop && |old(tasks)| < if queueSize < 0 then 0x1_0000_0000_0000_0000 + queueSize else queueSize
      ensures tasks == if r.Admitted? then old(tasks) + [task] else old(tasks)
    {
      if stop {
        return PoolStopped;
      }
      if |tasks| < Bound(queueSize) {
        tasks := tasks + [task];
        return Admitted;
      }
      return QueueFull;
    }

    /** The part of a worker's loop under the mutex: wait, return, or take the oldest task. */
    method NextTurn() returns (r: Turn)
      modifies this`tasks
      ensures r == WorkerTurn(old(tasks), stop)
      ensures tasks == if r.Take? then old(tasks)[1..] else old(tasks)
    {
      if !(stop || tasks != []) {
        return Wait;
      }
      if stop && tasks == [] {
        return Return;
      }
      r := Take(tasks[0]);
      tasks := tasks[1..];
    }

    /** The part of the destructor under the mutex. */
    method Stop()
      modifies this`stop
      ensures stop
    {
      stop := true;
    }
  }

  // ---------------------------------------------------------------- steps and runs

  function Start(threads: nat, queueSize: int): (p: Pool) {
    Pool([], false, queueSize, seq(threads, _ => Awake), 0, false, [], [], multiset{},
         if Bound(queueSize) >= 0 then Bound(queueSize) else 0)
  }

  datatype Step =
    | Enqueue(task: Task)          // a caller's section; the notify comes later
    | NotifyOne(worker: nat)       // a caller's notify; `worker` is woken if it is blocked
    | NotifyNobody                 // a notify that finds nobody blocked
    | Turn(worker: nat)            // a worker's section
    | Finish(worker: nat)          // a worker's task ends
    | Spurious(worker: nat)        // a blocked worker wakes up unnotified
    | Stop                         // the destructor's section
    | NotifyAll                    // the destructor's notify_all
    | SetQueueSize(size: int)

  predicate Enabled(p: Pool, step: Step) {
    match step
    case Enqueue(_) => true
    case NotifyOne(w) => p.owedNotifies > 0 && w < |p.workers| && p.workers[w].Blocked?
    case NotifyNobody => p.owedNotifies > 0 && forall w | 0 <= w < |p.workers| :: !p.workers[w].Blocked?
    case Turn(w) => w < |p.workers| && p.workers[w].Awake?
    case Finish(w) => w < |p.workers| && p.workers[w].Running?
    case Spurious(w) => w < |p.workers| && p.workers[w].Blocked?
    case Stop => !p.stop
    case NotifyAll => p.owedNotifyAll
    case SetQueueSize(_) => true
  }

  function Apply(p: Pool, step: Step): (q: Pool)
    requires Enabled(p, step)
  {
    match step
    case Enqueue(task) =>
      if Admit(p.tasks, p.stop, p.queueSize).Admitted?
      then p.(tasks := p.tasks + [task], owedNotifies := p.owedNotifies + 1, accepted := p.accepted + [task])
      else p
    case NotifyOne(w) => p.(owedNotifies := p.owedNotifies - 1, workers := p.workers[w := Awake])
    case NotifyNobody => p.(owedNotifies := p.owedNotifies - 1)
    case Turn(w) =>
      (match WorkerTurn(p.tasks, p.stop)
       case Wait => p.(workers := p.workers[w := Blocked])
       case Return => p.(workers := p.workers[w := Exited])
       case Take(task) =>
         p.(tasks := p.tasks[1..], workers := p.workers[w := Running(task)], started := p.started + [task]))
    case Finish(w) =>
      p.(workers := p.workers[w := Awake], finished := p.finished + multiset{p.workers[w].task})
    case Spurious(w) => p.(workers := p.workers[w := Awake])
    case Stop => p.(stop := true, owedNotifyAll := true)
    case NotifyAll =>
      p.(owedNotifyAll := false, workers := seq(|p.workers|, i requires 0 <= i < |p.workers| =>
          if p.workers[i].Blocked? then Awake else p.workers[i]))
    case SetQueueSize(size) =>
      p.(queueSize := size, largestBound := if Bound(size) > p.largestBound then Bound(size) else p.largestBound)
  }

  ghost predicate Follows(p: Pool, q: Pool) {
    exists step :: Enabled(p, step) && q == Apply(p, step)
  }

  /** `run` is a run of a pool: every state follows from the one before by an enabled step. */
  ghost predicate IsRun(threads: nat, queueSize: int, run: seq<Pool>) {
    && run != []
    && run[0] == Start(threads, queueSize)
    && forall i | 0 < i < |run| :: Follows(run[i - 1], run[i])
  }

  function Final(run: seq<Pool>): (p: Pool)
    requires run != []
  {
    run[|run| - 1]
  }

  // ---------------------------------------------------------------- what every step keeps

  /** How many workers are running `task`. */
  function RunningCount(workers: seq<Worker>, task: Task): (r: nat) {
    if workers == [] then 0
    else RunningCount(workers[..|workers| - 1], task) + Share(workers[|workers| - 1], task)
  }

  function Share(w: Worker, task: Task): (r: nat) {
    if w == Running(task) then 1 else 0
  }

  /** Changing one worker changes the count by that worker's share. */
  lemma {:induction false} RunningUpdate(workers: seq<Worker>, i: nat, w: Worker, task: Task)
    requires i < |workers|
    ensures RunningCount(workers[i := w], task) + Share(workers[i], task) ==
      RunningCount(workers, task) + Share(w, task)
    decreases |workers|
  {
    var front := workers[..|workers| - 1];
    if i == |workers| - 1 {
      assert workers[i := w][..|workers| - 1] == front;
    } else {
      assert workers[i := w][..|workers| - 1] == front[i := w];
      RunningUpdate(front, i, w, task);
    }
  }

  lemma {:induction false} NobodyRunning(workers: seq<Worker>, task: Task)
    requires forall i | 0 <= i < |workers| :: !workers[i].Running?
    ensures RunningCount(workers, task) == 0
  {
    if workers != [] {
      NobodyRunning(workers[..|workers| - 1], task);
    }
  }

  /** Waking workers does not change the running tasks. */
  lemma {:induction false} RunningSame(a: seq<Worker>, b: seq<Worker>, task: Task)
    requires |a| == |b| && forall i | 0 <= i < |a| :: Share(a[i], task) == Share(b[i], task)
    ensures RunningCount(a, task) == RunningCount(b, task)
  {
    if a != [] {
      RunningSame(a[..|a| - 1], b[..|b| - 1], task);
      assert Share(a[|a| - 1], task) == Share(b[|b| - 1], task);
    }
  }

  /** Every start of a task is still running or has finished. */
  predicate Accounted(p: Pool, task: Task) {
    multiset(p.started)[task] == RunningCount(p.workers, task) + p.finished[task]
  }

  /** No accepted task is lost, duplicated or reordered. */
  ghost predicate Conserved(p: Pool) {
    && p.accepted == p.started + p.tasks
    && forall task :: Accounted(p, task)
  }

  predicate Bounded(p: Pool) {
    |p.tasks| <= p.largestBound && Bound(p.queueSize) <= p.largestBound
  }

  predicate SomeoneAwake(p: Pool) {
    exists w | 0 <= w < |p.workers| :: p.workers[w].Awake? || p.workers[w].Running?
  }

  predicate SomeoneBlocked(p: Pool) {
    exists w | 0 <= w < |p.workers| :: p.workers[w].Blocked?
  }

  predicate SomeoneExited(p: Pool) {
    exists w | 0 <= w < |p.workers| :: p.workers[w].Exited?
  }

  /** No wake-up is lost: before the stop somebody is awake, or enough notifies are still owed for
      the queued tasks; after it nobody stays blocked once everybody has been notified. */
  predicate NoLostWakeup(p: Pool) {
    && (!p.stop && |p.workers| > 0 ==> SomeoneAwake(p) || |p.tasks| <= p.owedNotifies)
    && (p.owedNotifyAll ==> p.stop)
    && (p.stop && !p.owedNotifyAll ==> !SomeoneBlocked(p))
  }

  /** Workers return only when the pool is stopped and drained. */
  predicate Drained(p: Pool) {
    SomeoneExited(p) ==> p.stop && p.tasks == []
  }

  ghost predicate Invariant(p: Pool) {
    Conserved(p) && Bounded(p) && NoLostWakeup(p) && Drained(p)
  }

  lemma StartInvariant(threads: nat, queueSize: int)
    ensures Invariant(Start(threads, queueSize)) && |Start(threads, queueSize).workers| == threads
  {
    var p := Start(threads, queueSize);
    forall task ensures Accounted(p, task) {
      NobodyRunning(p.workers, task);
    }
    if threads > 0 {
      assert p.workers[0].Awake?;
    }
  }

  lemma StepConserves(p: Pool, step: Step)
    requires Conserved(p) && Enabled(p, step)
    ensures Conserved(Apply(p, step))
  {
    var q := Apply(p, step);
    forall task ensures Accounted(q, task) {
      StepAccounts(p, step, task);
    }
    if step.Turn? && WorkerTurn(p.tasks, p.stop).Take? {
      assert p.tasks == [p.tasks[0]] + p.tasks[1..];
    }
  }

  lemma StepAccounts(p: Pool, step: Step, task: Task)
    requires Accounted(p, task) && Enabled(p, step)
    ensures Accounted(Apply(p, step), task)
  {
    var q := Apply(p, step);
    match step
    case NotifyOne(w) => RunningUpdate(p.workers, w, Awake, task);
    case Turn(w) => TurnAccounts(p, w, task);
    case Finish(w) => FinishAccounts(p, w, task);
    case Spurious(w) => RunningUpdate(p.workers, w, Awake, task);
    case NotifyAll => RunningSame(p.workers, q.workers, task);
    case _ =>
  }

  lemma TurnAccounts(p: Pool, w: nat, task: Task)
    requires Accounted(p, task) && Enabled(p, Turn(w))
    ensures Accounted(Apply(p, Turn(w)), task)
  {
    var q := Apply(p, Turn(w));
    RunningUpdate(p.workers, w, q.workers[w], task);
    if WorkerTurn(p.tasks, p.stop).Take? {
      assert multiset(q.started)[task] == multiset(p.started)[task] + Share(Running(p.tasks[0]), task);
    }
  }

  lemma FinishAccounts(p: Pool, w: nat, task: Task)
    requires Accounted(p, task) && Enabled(p, Finish(w))
    ensures Accounted(Apply(p, Finish(w)), task)
  {
    var q := Apply(p, Finish(w));
    RunningUpdate(p.workers, w, Awake, task);
    assert q.finished[task] == p.finished[task] + Share(p.workers[w], task);
  }

  lemma StepKeepsWakeups(p: Pool, step: Step)
    requires NoLostWakeup(p) && Drained(p) && Enabled(p, step)
    ensures NoLostWakeup(Apply(p, step)) && Drained(Apply(p, step))
  {
    var q := Apply(p, step);
    match step
    case NotifyOne(w) => assert q.workers[w].Awake?;
    case NotifyNobody =>
      if !p.stop && |p.workers| > 0 {
        assert p.workers[0].Awake? || p.workers[0].Running?;
      }
    case Turn(w) => TurnKeepsWakeups(p, w);
    case Finish(w) => assert q.workers[w].Awake?;
    case Spurious(w) => assert q.workers[w].Awake?;
    case NotifyAll =>
    case _ =>
  }

  lemma TurnKeepsWakeups(p: Pool, w: nat)
    requires NoLostWakeup(p) && Drained(p) && Enabled(p, Turn(w))
    ensures NoLostWakeup(Apply(p, Turn(w))) && Drained(Apply(p, Turn(w)))
  {
    var q := Apply(p, Turn(w));
    if WorkerTurn(p.tasks, p.stop).Take? {
      assert q.workers[w].Running?;
    }
    if SomeoneExited(q) && !WorkerTurn(p.tasks, p.stop).Return? {
      assert SomeoneExited(p);
    }
  }

  lemma StepKeepsInvariant(p: Pool, step: Step)
    requires Invariant(p) && Enabled(p, step)
    ensures Invariant(Apply(p, step)) && |Apply(p, step).workers| == |p.workers|
  {
    hide Conserved, NoLostWakeup, Drained;
    StepConserves(p, step);
    StepKeepsWakeups(p, step);
  }

  /** In every state of every run: accepted tasks are the started ones followed by the queued ones,
      so tasks start in acceptance order; the started ones are running or finished, each once; the
      queue never exceeds the largest bound that was in force; no wake-up is lost. */
  lemma {:induction false} RunInvariant(threads: nat, queueSize: int, run: seq<Pool>)
    requires IsRun(threads, queueSize, run)
    ensures Invariant(Final(run)) && |Final(run).workers| == threads
    decreases |run|
  {
    hide Invariant, Apply, Enabled;
    if |run| == 1 {
      StartInvariant(threads, queueSize);
    } else {
      var n := |run| - 1;
      assert Follows(run[n - 1], run[n]);
      RunInvariant(threads, queueSize, run[..n]);
      var step :| Enabled(run[n - 1], step) && run[n] == Apply(run[n - 1], step);
      StepKeepsInvariant(run[n - 1], step);
    }
  }

  /** Once every one of at least one worker has returned, exactly the accepted tasks have run. */
  lemma AllAcceptedTasksRan(threads: nat, queueSize: int, run: seq<Pool>)
    requires IsRun(threads, queueSize, run) && threads >= 1
    requires forall w | 0 <= w < |Final(run).workers| :: Final(run).workers[w].Exited?
    ensures Final(run).stop && Final(run).tasks == [] && Final(run).finished == multiset(Final(run).accepted)
  {
    RunInvariant(threads, queueSize, run);
    var p := Final(run);
    assert p.workers[0].Exited?;
    FinishedAll(p);
  }

  /** When nothing is queued or running, exactly the accepted tasks have finished. */
  lemma FinishedAll(p: Pool)
    requires Conserved(p) && p.tasks == [] && forall w | 0 <= w < |p.workers| :: !p.workers[w].Running?
    ensures p.finished == multiset(p.accepted)
  {
    assert p.started + p.tasks == p.started;
    forall task ensures p.finished[task] == multiset(p.accepted)[task] {
      NobodyRunning(p.workers, task);
      assert Accounted(p, task);
    }
  }

  // ---------------------------------------------------------------- shutting down

  /** How much a worker has still to do. */
  function Effort(w: Worker): (r: nat) {
    match w
    case Awake => 1
    case Blocked => 2
    case Running(_) => 2
    case Exited => 0
  }

  function TotalEffort(workers: seq<Worker>): (r: nat) {
    if workers == [] then 0 else TotalEffort(workers[..|workers| - 1]) + Effort(workers[|workers| - 1])
  }

  /** The work left before a stopped pool is at rest. */
  function Remaining(p: Pool): (r: nat) {
    3 * |p.tasks| + TotalEffort(p.workers) + p.owedNotifies + if p.owedNotifyAll then 1 else 0
  }

  lemma {:induction false} EffortUpdate(workers: seq<Worker>, i: nat, w: Worker)
    requires i < |workers|
    ensures TotalEffort(workers[i := w]) + Effort(workers[i]) == TotalEffort(workers) + Effort(w)
    decreases |workers|
  {
    var front := workers[..|workers| - 1];
    if i == |workers| - 1 {
      assert workers[i := w][..|workers| - 1] == front;
    } else {
      assert workers[i := w][..|workers| - 1] == front[i := w];
      EffortUpdate(front, i, w);
    }
  }

  lemma {:induction false} EffortMonotone(a: seq<Worker>, b: seq<Worker>)
    requires |a| == |b| && forall i | 0 <= i < |a| :: Effort(a[i]) <= Effort(b[i])
    ensures TotalEffort(a) <= TotalEffort(b)
  {
    if a != [] {
      EffortMonotone(a[..|a| - 1], b[..|b| - 1]);
      assert Effort(a[|a| - 1]) <= Effort(b[|b| - 1]);
    }
  }

  /** The steps that belong to the pool itself: not those of callers that only knock. */
  predicate Internal(step: Step) {
    !step.Enqueue? && !step.SetQueueSize?
  }

  /** After the stop every step of the pool brings it nearer to rest, and callers change nothing. */
  lemma StoppedPoolWindsDown(p: Pool, step: Step)
    requires p.stop && Enabled(p, step)
    ensures Apply(p, step).stop
    ensures Internal(step) ==> Remaining(Apply(p, step)) < Remaining(p)
    ensures !Internal(step) ==> Remaining(Apply(p, step)) == Remaining(p)
  {
    var q := Apply(p, step);
    match step
    case NotifyOne(w) => EffortUpdate(p.workers, w, Awake);
    case Turn(w) => EffortUpdate(p.workers, w, q.workers[w]);
    case Finish(w) => EffortUpdate(p.workers, w, Awake);
    case Spurious(w) => EffortUpdate(p.workers, w, Awake);
    case NotifyAll => EffortMonotone(q.workers, p.workers);
    case _ =>
  }

  /** The steps the pool owes to its tasks: notifies, turns and completions. */
  predicate Productive(step: Step) {
    step.NotifyOne? || step.NotifyNobody? || step.Turn? || step.Finish? || step.NotifyAll?
  }

  /** A pool that owes no step has nothing left to do: before the stop nothing is queued or running,
      after it every worker has returned and exactly the accepted tasks have run. */
  lemma RestingPool(p: Pool)
    requires Invariant(p) && |p.workers| > 0
    requires forall step | Productive(step) :: !Enabled(p, step)
    ensures p.tasks == [] && p.finished == multiset(p.accepted)
    ensures forall w | 0 <= w < |p.workers| :: !p.workers[w].Running?
    ensures p.stop ==> forall w | 0 <= w < |p.workers| :: p.workers[w].Exited?
  {
    forall w | 0 <= w < |p.workers|
      ensures !p.workers[w].Awake? && !p.workers[w].Running?
    {
      assert !Enabled(p, Turn(w));
      assert !Enabled(p, Finish(w));
    }
    assert !Enabled(p, NotifyAll);
    if p.workers[0].Blocked? {
      assert !Enabled(p, NotifyOne(0));
    } else {
      assert p.workers[0].Exited?;
    }
    FinishedAll(p);
  }

  /** Hence a stopped pool winds down: every run of its own steps is at most `Remaining` long. */
  lemma {:induction false} ShutdownTerminates(p: Pool, steps: seq<Step>, q: Pool)
    requires p.stop && Runs(p, steps, q)
    requires forall i | 0 <= i < |steps| :: Internal(steps[i])
    ensures q.stop && |steps| + Remaining(q) <= Remaining(p)
    decreases |steps|
  {
    if steps != [] {
      StoppedPoolWindsDown(p, steps[0]);
      ShutdownTerminates(Apply(p, steps[0]), steps[1..], q);
    }
  }

  /** `steps` lead from `p` to `q`. */
  predicate Runs(p: Pool, steps: seq<Step>, q: Pool)
    decreases |steps|
  {
    if steps == [] then p == q else Enabled(p, steps[0]) && Runs(Apply(p, steps[0]), steps[1..], q)
  }

  /** A pool whose size is not negative and never changed never queues more tasks than that. */
  lemma QueueStaysWithinSize(threads: nat, queueSize: nat, steps: seq<Step>, q: Pool)
    requires Runs(Start(threads, queueSize), steps, q) && forall i | 0 <= i < |steps| :: !steps[i].SetQueueSize?
    ensures |q.tasks| <= queueSize
  {
    SizeKept(Start(threads, queueSize), queueSize, steps, q);
  }

  lemma {:induction false} SizeKept(p: Pool, size: nat, steps: seq<Step>, q: Pool)
    requires Runs(p, steps, q) && forall i | 0 <= i < |steps| :: !steps[i].SetQueueSize?
    requires p.queueSize == size && |p.tasks| <= size
    ensures |q.tasks| <= size
    decreases |steps|
  {
    if steps != [] {
      SizeKept(Apply(p, steps[0]), size, steps[1..], q);
    }
  }

  // ---------------------------------------------------------------- admission

  /** What a caller's section does: exactly while the pool runs and the queue is shorter than its size
      (a negative size counts as 2^64 more) the task is queued and accepted, otherwise it is refused and
      nothing changes. */
  lemma EnqueueExactly(p: Pool, task: Task)
    ensures var q := Apply(p, Enqueue(task));
      if !p.stop && |p.tasks| < if p.queueSize < 0 then 0x1_0000_0000_0000_0000 + p.queueSize else p.queueSize
      then q == p.(tasks := p.tasks + [task], accepted := p.accepted + [task], owedNotifies := p.owedNotifies + 1)
      else q == p
  {
  }

  /** The pool after callers have knocked with one task after the other. */
  function Knocked(p: Pool, tasks: seq<Task>): (q: Pool)
    decreases |tasks|
  {
    if tasks == [] then p else Knocked(Apply(p, Enqueue(tasks[0])), tasks[1..])
  }

  /** Nothing is refused too early or too late: of any tasks brought to a running pool while no worker
      takes one, the first that fit are accepted, in order, and all later ones are refused. */
  lemma {:induction false} AcceptsWhatFits(p: Pool, tasks: seq<Task>)
    requires !p.stop && p.queueSize >= |p.tasks|
    ensures var room := p.queueSize - |p.tasks|;
      var fitting := if |tasks| <= room then tasks else tasks[..room];
      && Knocked(p, tasks).tasks == p.tasks + fitting
      && Knocked(p, tasks).accepted == p.accepted + fitting
      && Knocked(p, tasks).owedNotifies == p.owedNotifies + |fitting|
    decreases |tasks|
  {
    hide Apply;
    if tasks != [] {
      var q := Apply(p, Enqueue(tasks[0]));
      EnqueueExactly(p, tasks[0]);
      AcceptsWhatFits(q, tasks[1..]);
      var room := p.queueSize - |p.tasks|;
      if room > 0 {
        FirstThenRest(p.tasks, tasks, room);
        FirstThenRest(p.accepted, tasks, room);
      }
    }
  }

  lemma FirstThenRest(before: seq<Task>, tasks: seq<Task>, room: nat)
    requires tasks != [] && room > 0
    ensures before + [tasks[0]] + tasks[1..] == before + tasks
    ensures |tasks| > room ==> before + [tasks[0]] + tasks[1..][..room - 1] == before + tasks[..room]
  {
  }

  /** Hence a fresh pool of size `n` accepts `n` tasks and refuses the next. */
  lemma FreshPoolFills(threads: nat, n: nat, tasks: seq<Task>, next: Task)
    requires |tasks| == n
    ensures Knocked(Start(threads, n), tasks).accepted == tasks
    ensures Apply(Knocked(Start(threads, n), tasks), Enqueue(next)) == Knocked(Start(threads, n), tasks)
  {
    AcceptsWhatFits(Start(threads, n), tasks);
    assert [] + tasks == tasks;
    SizeAndStopKept(Start(threads, n), tasks);
  }

  lemma {:induction false} SizeAndStopKept(p: Pool, tasks: seq<Task>)
    ensures Knocked(p, tasks).queueSize == p.queueSize && Knocked(p, tasks).stop == p.stop
    decreases |tasks|
  {
    if tasks != [] {
      SizeAndStopKept(Apply(p, Enqueue(tasks[0])), tasks[1..]);
    }
  }
}
