/** The scheduler: run queues, wait queues and task switching, on any number of CPUs at once.

A step is one lock-protected queue operation, or one stretch of straight-line code that only its own
CPU can observe; steps of different CPUs interleave freely.  A failed assertion stops the machine.
*/
module Scheduler {
  import opened Common

  type Tid = nat
  type CpuId = nat
  type WqId = nat

  datatype TaskState = Ready | Running | Blocked | Dead

  datatype Task = Task(cpu: CpuId, state: TaskState, waitingOn: Option<WqId>)

  /** How far a CPU is in scheduler_block_current or scheduler_switch. */
  datatype Phase =
    | Out                  // running its current task
    | Blocking(w: WqId)    // the current task is marked BLOCKED, not yet on the wait queue
    | Switching            // entering scheduler_switch
    | Picking              // the previous task is put back; about to test the run queue
    | Taking               // the run queue was not empty; about to take its head
    | Chosen(next: Tid)    // the next task is decided, not yet current
    | Started              // the first task of this CPU is current; the bootstrap assertion is left

  datatype Cpu = Cpu(current: Option<Tid>, idle: Tid, runq: seq<Tid>, phase: Phase)

  datatype State = State(tasks: map<Tid, Task>, cpus: map<CpuId, Cpu>, waits: map<WqId, seq<Tid>>)

  datatype Reason = BadCurrent | BadPrevious | BadNext | BadEnqueue | BadDequeue | WokeBlocked | IdleWhileRunnable

  datatype Result = Next(s: State) | Stop(why: Reason)

  datatype Op =
    | Create(t: Tid, home: CpuId)
    | Enqueue(t: Tid)
    | Dequeue(t: Tid)
    | Block(w: WqId)
    | Yield
    | Exit
    | Wake(w: WqId)
    | Proceed

  predicate IsIdle(s: State, t: Tid) {
    t in s.tasks && s.tasks[t].cpu in s.cpus && s.cpus[s.tasks[t].cpu].idle == t
  }

  // ---------- the operations ----------

  function SetTask(s: State, t: Tid, x: Task): State { s.(tasks := s.tasks[t := x]) }

  function SetCpu(s: State, c: CpuId, x: Cpu): State { s.(cpus := s.cpus[c := x]) }

  /** scheduler_enqueue: the four assertions, then READY and onto the tail of its CPU's queue. */
  function DoEnqueue(s: State, t: Tid): Result
    requires t in s.tasks && s.tasks[t].cpu in s.cpus
  {
    var x := s.tasks[t];
    if x.state == Running || x.state == Blocked || x.waitingOn.Some? then Stop(BadEnqueue) else
    var k := s.cpus[x.cpu];
    Next(SetCpu(SetTask(s, t, x.(state := Ready)), x.cpu, k.(runq := k.runq + [t])))
  }

  /** scheduler_dequeue: out of the middle of its CPU's queue. */
  function DoDequeue(s: State, t: Tid): Result
    requires t in s.tasks && s.tasks[t].cpu in s.cpus
  {
    var x := s.tasks[t];
    if x.state != Ready || x.waitingOn.Some? then Stop(BadDequeue) else
    var k := s.cpus[x.cpu];
    Next(SetCpu(s, x.cpu, k.(runq := Removed(k.runq, t))))
  }

  /** The queue without its first t. */
  function Removed(q: seq<Tid>, t: Tid): (r: seq<Tid>)
    ensures t !in q ==> r == q
  {
    if q == [] then [] else if q[0] == t then q[1..] else [q[0]] + Removed(q[1..], t)
  }

  /** scheduler_block_current, up to marking the task. */
  function DoBlock(s: State, c: CpuId, w: WqId): Result
    requires c in s.cpus
  {
    var k := s.cpus[c];
    if k.current.None? || k.current.value == k.idle || k.current.value !in s.tasks then Stop(BadCurrent) else
    var x := s.tasks[k.current.value];
    if x.cpu != c || x.state != Running || x.waitingOn.Some? then Stop(BadCurrent) else
    Next(SetCpu(SetTask(s, k.current.value, x.(state := Blocked)), c, k.(phase := Blocking(w))))
  }

  /** waitqueue_enqueue of the task just marked. */
  function DoWait(s: State, c: CpuId, w: WqId): Result
    requires c in s.cpus && w in s.waits && s.cpus[c].current.Some? && s.cpus[c].current.value in s.tasks
  {
    var k := s.cpus[c];
    var t := k.current.value;
    if s.tasks[t].state == Ready then Stop(BadCurrent) else
    Next(SetCpu(SetTask(s, t, s.tasks[t].(waitingOn := Some(w))), c, k.(phase := Switching))
         .(waits := s.waits[w := s.waits[w] + [t]]))
  }

  /** The first half of scheduler_switch: check the previous task and put it back if it still runs. */
  function DoPutBack(s: State, c: CpuId): Result
    requires c in s.cpus && (s.cpus[c].current.Some? ==> s.cpus[c].current.value in s.tasks)
  {
    var k := s.cpus[c];
    if k.current.None? then Next(SetCpu(s, c, k.(phase := Picking))) else
    var t := k.current.value;
    var x := s.tasks[t];
    if x.cpu != c || (x.state == Blocked && x.waitingOn.None?)
      || (x.state != Blocked && x.waitingOn.Some?) then Stop(BadPrevious)
    else if t != k.idle && x.state == Running then
      Next(SetCpu(SetTask(s, t, x.(state := Ready)), c, k.(runq := k.runq + [t], phase := Picking)))
    else Next(SetCpu(s, c, k.(phase := Picking)))
  }

  /** scheduler_policy_pick_next: an unlocked test, then the head under the lock; idle when it is empty. */
  function DoPick(s: State, c: CpuId): Result
    requires c in s.cpus
  {
    var k := s.cpus[c];
    if k.runq == [] then Next(SetCpu(s, c, k.(phase := Chosen(k.idle))))
    else if k.phase == Picking then Next(SetCpu(s, c, k.(phase := Taking)))
    else Next(SetCpu(s, c, k.(runq := k.runq[1..], phase := Chosen(k.runq[0]))))
  }

  /** The second half of scheduler_switch: check the next task and make it current. */
  function DoCommit(s: State, c: CpuId, n: Tid): Result
    requires c in s.cpus && n in s.tasks
  {
    var k := s.cpus[c];
    var x := s.tasks[n];
    if x.cpu != c || (x.state != Ready && n != k.idle) || x.waitingOn.Some? then Stop(BadNext) else
    Next(SetCpu(SetTask(s, n, x.(state := Running)), c,
                k.(current := Some(n), phase := if k.current.None? then Started else Out)))
  }

  function DoProceed(s: State, c: CpuId): Result
    requires CanProceed(s, c)
  {
    var k := s.cpus[c];
    match k.phase
    case Blocking(w) => DoWait(s, c, w)
    case Switching => DoPutBack(s, c)
    case Picking => DoPick(s, c)
    case Taking => DoPick(s, c)
    case Chosen(n) => DoCommit(s, c, n)
    case Started =>
      if k.current == Some(k.idle) && k.runq != [] then Stop(IdleWhileRunnable)
        else Next(SetCpu(s, c, k.(phase := Out)))
  }

  predicate CanProceed(s: State, c: CpuId) {
    && c in s.cpus && s.cpus[c].phase != Out
    && (s.cpus[c].current.Some? ==> s.cpus[c].current.value in s.tasks)
    && match s.cpus[c].phase
       case Blocking(w) => w in s.waits && s.cpus[c].current.Some?
       case Chosen(n) => n in s.tasks
       case _ => true
  }

  /** What callers owe: they enqueue only live tasks that are on no queue and not running, dequeue only
      queued ones, create only new ones, and only a task that is not idle exits. */
  ghost predicate Allowed(s: State, c: CpuId, op: Op) {
    && c in s.cpus
    && match op
       case Create(t, home) => t !in s.tasks && home in s.cpus
       case Enqueue(t) => Unqueued(s, t)
       case Dequeue(t) => t in s.tasks && s.tasks[t].cpu in s.cpus && t in s.cpus[s.tasks[t].cpu].runq
       case Block(w) => s.cpus[c].phase == Out && w in s.waits
       case Yield => s.cpus[c].phase == Out
       case Exit => s.cpus[c].phase == Out && s.cpus[c].current.Some? && s.cpus[c].current != Some(s.cpus[c].idle)
                    && s.cpus[c].current.value in s.tasks
       case Wake(w) => s.cpus[c].phase == Out && w in s.waits
       case Proceed => CanProceed(s, c)
  }

  ghost predicate Unqueued(s: State, t: Tid) {
    && t in s.tasks && !IsIdle(s, t) && s.tasks[t].state != Dead && s.tasks[t].cpu in s.cpus
    && (forall w :: w in s.waits ==> t !in s.waits[w])
    && var k := s.cpus[s.tasks[t].cpu]; t !in k.runq && k.current != Some(t) && k.phase != Chosen(t)
  }

  ghost function Step(s: State, c: CpuId, op: Op): Result
    requires Allowed(s, c, op)
  {
    match op
    case Create(t, home) => Next(SetTask(s, t, Task(home, Ready, None)))
    case Enqueue(t) => DoEnqueue(s, t)
    case Dequeue(t) => DoDequeue(s, t)
    case Block(w) => DoBlock(s, c, w)
    case Yield => Next(SetCpu(s, c, s.cpus[c].(phase := Switching)))
    case Exit =>
      var t := s.cpus[c].current.value;
      Next(SetCpu(SetTask(s, t, s.tasks[t].(state := Dead)), c, s.cpus[c].(phase := Switching)))
    case Wake(w) => if s.waits[w] == [] then Next(s) else Stop(WokeBlocked)
    case Proceed => DoProceed(s, c)
  }

  // ---------- the invariant ----------

  ghost predicate NoDup(q: seq<Tid>) {
    forall i, j :: 0 <= i < j < |q| ==> q[i] != q[j]
  }

  /** A run queue holds only READY tasks of its own CPU, each once. */
  ghost predicate RunOk(s: State, c: CpuId)
    requires c in s.cpus
  {
    && NoDup(s.cpus[c].runq)
    && forall t :: t in s.cpus[c].runq ==> t in s.tasks && t != s.cpus[c].idle && s.tasks[t] == Task(c, Ready, None)
  }

  /** A wait queue holds only BLOCKED tasks that name it, each once. */
  ghost predicate WaitOk(s: State, w: WqId)
    requires w in s.waits
  {
    && NoDup(s.waits[w])
    && forall t :: t in s.waits[w] ==>
              t in s.tasks && !IsIdle(s, t) && s.tasks[t].state == Blocked && s.tasks[t].waitingOn == Some(w)
  }

  /** A task that names a wait queue is on it; a RUNNING task is its CPU's current one. */
  ghost predicate TaskOk(s: State, t: Tid)
    requires t in s.tasks
  {
    var x := s.tasks[t];
    && x.cpu in s.cpus
    && (x.waitingOn.Some? ==> x.waitingOn.value in s.waits && t in s.waits[x.waitingOn.value])
    && (x.state == Running && !IsIdle(s, t) ==> s.cpus[x.cpu].current == Some(t) && CurrentRuns(s.cpus[x.cpu].phase))
    && (x.state == Blocked && x.waitingOn.None? ==> s.cpus[x.cpu].current == Some(t) && s.cpus[x.cpu].phase.Blocking?)
  }

  predicate CurrentRuns(p: Phase) { p.Out? || p.Switching? || p.Started? }

  ghost predicate CpuOk(s: State, c: CpuId)
    requires c in s.cpus
  {
    var k := s.cpus[c];
    && k.idle in s.tasks && s.tasks[k.idle].cpu == c && s.tasks[k.idle].waitingOn.None?
    && (s.tasks[k.idle].state == Ready || s.tasks[k.idle].state == Running)
    && (k.current.Some? ==> k.current.value in s.tasks && s.tasks[k.current.value].cpu == c)
    && (k.current.Some? && k.current.value != k.idle ==>
          var x := s.tasks[k.current.value];
          match k.phase
          case Out => x.state == Running
          case Started => x.state == Running
          case Blocking(w) => x.state == Blocked && x.waitingOn.None?
          case Switching => x.state == Running || x.state == Dead || (x.state == Blocked && x.waitingOn.Some?)
          case _ => x.state != Running)
    && match k.phase
       case Blocking(w) => w in s.waits && k.current.Some? && k.current.value != k.idle
       case Chosen(n) => n in s.tasks && (n != k.idle ==> s.tasks[n] == Task(c, Ready, None) && n !in k.runq)
       case Started => k.current.Some?
       case _ => true
  }

  ghost predicate Inv(s: State) {
    && (forall c :: c in s.cpus ==> RunOk(s, c))
    && (forall w :: w in s.waits ==> WaitOk(s, w))
    && (forall t :: t in s.tasks ==> TaskOk(s, t))
    && (forall c :: c in s.cpus ==> CpuOk(s, c))
  }

  ghost predicate Init(s: State) {
    && (forall t :: t in s.tasks ==> s.tasks[t].cpu in s.cpus && s.tasks[t] == Task(s.tasks[t].cpu, Ready, None))
    && (forall w :: w in s.waits ==> s.waits[w] == [])
    && (forall c :: c in s.cpus ==>
          s.cpus[c] == Cpu(None, s.cpus[c].idle, [], Out) && s.cpus[c].idle in s.tasks
            && s.tasks[s.cpus[c].idle].cpu == c)
  }

  lemma InitOk(s: State)
    requires Init(s)
    ensures Inv(s)
  {
  }

  // ---------- every step keeps it ----------

  /** s' differs from s at most in task t and CPU c, t being one of c's own tasks and not idle. */
  ghost predicate Touches(s: State, s': State, c: CpuId, t: Tid) {
    && c in s.cpus && s'.cpus.Keys == s.cpus.Keys && s'.tasks.Keys == s.tasks.Keys && s'.waits.Keys == s.waits.Keys
    && t in s.tasks && s.tasks[t].cpu == c && s'.tasks[t].cpu == c
    && (forall u :: u in s.tasks && u != t ==> s'.tasks[u] == s.tasks[u])
    && (forall d :: d in s.cpus && d != c ==> s'.cpus[d] == s.cpus[d])
    && s'.cpus[c].idle == s.cpus[c].idle
  }

  lemma OtherTask(s: State, s': State, c: CpuId, t: Tid, u: Tid)
    requires Touches(s, s', c, t) && u in s.tasks && s.tasks[u].cpu != c && TaskOk(s, u)
    requires forall w :: w in s.waits && u in s.waits[w] ==> u in s'.waits[w]
    ensures TaskOk(s', u)
  {
  }

  lemma OtherRun(s: State, s': State, c: CpuId, t: Tid, d: CpuId)
    requires Touches(s, s', c, t) && d in s.cpus && d != c && RunOk(s, d)
    ensures RunOk(s', d)
  {
  }

  lemma OtherCpu(s: State, s': State, c: CpuId, t: Tid, d: CpuId)
    requires Touches(s, s', c, t) && d in s.cpus && d != c && CpuOk(s, d)
    ensures CpuOk(s', d)
  {
  }

  /** Then nothing is left to show but what concerns CPU c, its tasks and the wait queues. */
  lemma TouchKeeps(s: State, s': State, c: CpuId, t: Tid)
    requires Inv(s) && Touches(s, s', c, t)
    requires RunOk(s', c) && CpuOk(s', c)
    requires forall w :: w in s'.waits ==> WaitOk(s', w)
    requires forall u, w :: w in s.waits && u != t && u in s.waits[w] ==> u in s'.waits[w]
    requires forall u :: u in s'.tasks && s'.tasks[u].cpu == c ==> TaskOk(s', u)
    ensures Inv(s')
  {
    hide TaskOk;
    hide RunOk;
    hide CpuOk;
    hide WaitOk;
    forall u | u in s'.tasks ensures TaskOk(s', u) {
      if s.tasks[u].cpu != c { OtherTask(s, s', c, t, u); }
    }
    forall d | d in s'.cpus ensures RunOk(s', d) {
      if d != c { OtherRun(s, s', c, t, d); }
    }
    forall d | d in s'.cpus ensures CpuOk(s', d) {
      if d != c { OtherCpu(s, s', c, t, d); }
    }
  }

  lemma WaitStays(s: State, s': State, c: CpuId, t: Tid, w: WqId)
    requires Touches(s, s', c, t) && w in s.waits && WaitOk(s, w) && s'.waits[w] == s.waits[w]
    requires t in s.waits[w] ==> s'.tasks[t] == s.tasks[t]
    ensures WaitOk(s', w)
  {
  }

  /** A task that is READY, RUNNING or DEAD, or that names no queue, is on no wait queue. */
  lemma NotWaiting(s: State, t: Tid, w: WqId)
    requires Inv(s) && t in s.tasks && w in s.waits && (s.tasks[t].state != Blocked || s.tasks[t].waitingOn.None?)
    ensures t !in s.waits[w]
  {
    assert WaitOk(s, w);
  }

  lemma WaitsStay(s: State, s': State, c: CpuId, t: Tid)
    requires Inv(s) && Touches(s, s', c, t) && s'.waits == s.waits
    requires s.tasks[t].state != Blocked || s.tasks[t].waitingOn.None? || s'.tasks[t] == s.tasks[t]
    ensures forall w :: w in s'.waits ==> WaitOk(s', w)
  {
    hide WaitOk;
    forall w | w in s'.waits ensures WaitOk(s', w) {
      if s'.tasks[t] != s.tasks[t] { NotWaiting(s, t, w); }
      WaitStays(s, s', c, t, w);
    }
  }

  /** s' has one more task, which is READY and on no queue. */
  ghost predicate Creates(s: State, s': State, t: Tid) {
    t !in s.tasks && t in s'.tasks && s'.tasks[t].cpu in s.cpus
      && s' == SetTask(s, t, Task(s'.tasks[t].cpu, Ready, None))
  }

  lemma CreateTask(s: State, s': State, t: Tid, u: Tid)
    requires Creates(s, s', t) && u in s'.tasks && (u != t ==> TaskOk(s, u))
    ensures TaskOk(s', u)
  {
  }

  lemma CreateRun(s: State, s': State, t: Tid, c: CpuId)
    requires Creates(s, s', t) && c in s.cpus && RunOk(s, c)
    ensures RunOk(s', c)
  {
  }

  lemma CreateWait(s: State, s': State, t: Tid, w: WqId)
    requires Creates(s, s', t) && w in s.waits && WaitOk(s, w)
    ensures WaitOk(s', w)
  {
  }

  lemma CreateCpu(s: State, s': State, t: Tid, c: CpuId)
    requires Creates(s, s', t) && c in s.cpus && CpuOk(s, c)
    ensures CpuOk(s', c)
  {
  }

  lemma CreateKeeps(s: State, t: Tid, home: CpuId)
    requires Inv(s) && t !in s.tasks && home in s.cpus
    ensures Inv(SetTask(s, t, Task(home, Ready, None)))
  {
    hide TaskOk;
    hide RunOk;
    hide CpuOk;
    hide WaitOk;
    var s' := SetTask(s, t, Task(home, Ready, None));
    forall u | u in s'.tasks ensures TaskOk(s', u) { CreateTask(s, s', t, u); }
    forall c | c in s'.cpus ensures RunOk(s', c) { CreateRun(s, s', t, c); }
    forall w | w in s'.waits ensures WaitOk(s', w) { CreateWait(s, s', t, w); }
    forall c | c in s'.cpus ensures CpuOk(s', c) { CreateCpu(s, s', t, c); }
  }

  lemma Parts(s: State, c: CpuId, t: Tid)
    requires Inv(s) && c in s.cpus
    ensures CpuOk(s, c) && RunOk(s, c) && (t in s.tasks ==> TaskOk(s, t))
    ensures t in s.tasks && s.tasks[t].state != Blocked ==> s.tasks[t].waitingOn.None?
  {
    if t in s.tasks && s.tasks[t].waitingOn.Some? {
      assert TaskOk(s, t) && WaitOk(s, s.tasks[t].waitingOn.value);
    }
  }

  lemma EnqueueKeeps(s: State, t: Tid)
    requires Inv(s) && Unqueued(s, t)
    ensures DoEnqueue(s, t).Next? && Inv(DoEnqueue(s, t).s)
  {
    hide Inv;
    hide WaitOk;
    var c := s.tasks[t].cpu;
    Parts(s, c, t);
    var s' := DoEnqueue(s, t).s;
    WaitsStay(s, s', c, t);
    forall u | u in s'.tasks && s'.tasks[u].cpu == c ensures TaskOk(s', u) { Parts(s, c, u); }
    TouchKeeps(s, s', c, t);
  }

  lemma {:induction false} RemovedAt(q: seq<Tid>, k: nat)
    requires NoDup(q) && k < |q|
    ensures Removed(q, q[k]) == q[..k] + q[k+1..]
  {
    if k > 0 {
      RemovedAt(q[1..], k - 1);
    }
  }

  lemma RemovedKeeps(q: seq<Tid>, t: Tid)
    requires NoDup(q) && t in q
    ensures NoDup(Removed(q, t)) && t !in Removed(q, t)
    ensures forall u :: u in Removed(q, t) ==> u in q
  {
    var k :| 0 <= k < |q| && q[k] == t;
    RemovedAt(q, k);
  }

  lemma DequeueKeeps(s: State, t: Tid)
    requires Inv(s) && t in s.tasks && s.tasks[t].cpu in s.cpus && t in s.cpus[s.tasks[t].cpu].runq
    ensures DoDequeue(s, t).Next? && Inv(DoDequeue(s, t).s)
  {
    hide Inv;
    hide WaitOk;
    var c := s.tasks[t].cpu;
    Parts(s, c, t);
    RemovedKeeps(s.cpus[c].runq, t);
    var s' := DoDequeue(s, t).s;
    WaitsStay(s, s', c, t);
    forall u | u in s'.tasks && s'.tasks[u].cpu == c ensures TaskOk(s', u) { Parts(s, c, u); }
    TouchKeeps(s, s', c, t);
  }

  /** Blocking stops only when the idle task, or nobody, is current. */
  lemma BlockKeeps(s: State, c: CpuId, w: WqId)
    requires Inv(s) && c in s.cpus && s.cpus[c].phase == Out && w in s.waits
    ensures DoBlock(s, c, w).Stop? <==> s.cpus[c].current.None? || s.cpus[c].current == Some(s.cpus[c].idle)
    ensures DoBlock(s, c, w).Next? ==> Inv(DoBlock(s, c, w).s)
  {
    hide Inv;
    hide WaitOk;
    Parts(s, c, s.cpus[c].idle);
    if s.cpus[c].current.Some? && s.cpus[c].current != Some(s.cpus[c].idle) {
      var t := s.cpus[c].current.value;
      Parts(s, c, t);
      var s' := DoBlock(s, c, w).s;
      WaitsStay(s, s', c, t);
      forall u | u in s'.tasks && s'.tasks[u].cpu == c ensures TaskOk(s', u) { Parts(s, c, u); }
      TouchKeeps(s, s', c, t);
    }
  }

  lemma WaitPart(s: State, t: Tid, v: WqId)
    requires Inv(s) && t in s.tasks && v in s.waits && s.tasks[t].waitingOn.None?
    ensures WaitOk(s, v) && t !in s.waits[v]
  {
    NotWaiting(s, t, v);
  }

  lemma WaitJoins(s: State, s': State, c: CpuId, t: Tid, w: WqId, v: WqId)
    requires Touches(s, s', c, t) && w in s.waits && v in s.waits && !IsIdle(s, t) && WaitOk(s, v) && t !in s.waits[v]
    requires s.tasks[t].state == Blocked && s'.tasks[t] == s.tasks[t].(waitingOn := Some(w))
    requires s'.waits == s.waits[w := s.waits[w] + [t]]
    ensures WaitOk(s', v)
  {
  }

  lemma WaitKeeps(s: State, c: CpuId, w: WqId)
    requires Inv(s) && c in s.cpus && s.cpus[c].phase == Blocking(w) && CanProceed(s, c)
    ensures DoWait(s, c, w).Next? && Inv(DoWait(s, c, w).s)
  {
    hide Inv;
    hide WaitOk;
    Parts(s, c, s.cpus[c].current.value);
    var t := s.cpus[c].current.value;
    var s' := DoWait(s, c, w).s;
    forall v | v in s'.waits ensures WaitOk(s', v) {
      WaitPart(s, t, v);
      WaitJoins(s, s', c, t, w, v);
    }
    forall u | u in s'.tasks && s'.tasks[u].cpu == c ensures TaskOk(s', u) { Parts(s, c, u); }
    TouchKeeps(s, s', c, t);
  }

  /** The assertions about the previous task never fail. */
  lemma PutBackKeeps(s: State, c: CpuId)
    requires Inv(s) && c in s.cpus && s.cpus[c].phase == Switching && CanProceed(s, c)
    ensures DoPutBack(s, c).Next? && Inv(DoPutBack(s, c).s)
  {
    hide Inv;
    hide WaitOk;
    Parts(s, c, s.cpus[c].idle);
    var t := if s.cpus[c].current.Some? then s.cpus[c].current.value else s.cpus[c].idle;
    Parts(s, c, t);
    var s' := DoPutBack(s, c).s;
    WaitsStay(s, s', c, t);
    forall u | u in s'.tasks && s'.tasks[u].cpu == c ensures TaskOk(s', u) { Parts(s, c, u); }
    TouchKeeps(s, s', c, t);
  }

  lemma PickKeeps(s: State, c: CpuId)
    requires Inv(s) && c in s.cpus && (s.cpus[c].phase == Picking || s.cpus[c].phase == Taking)
    ensures DoPick(s, c).Next? && Inv(DoPick(s, c).s)
  {
    hide Inv;
    hide WaitOk;
    Parts(s, c, s.cpus[c].idle);
    var t := s.cpus[c].idle;
    var s' := DoPick(s, c).s;
    WaitsStay(s, s', c, t);
    forall u | u in s'.tasks && s'.tasks[u].cpu == c ensures TaskOk(s', u) { Parts(s, c, u); }
    TouchKeeps(s, s', c, t);
  }

  /** The assertions about the next task never fail either. */
  lemma CommitKeeps(s: State, c: CpuId, n: Tid)
    requires Inv(s) && c in s.cpus && s.cpus[c].phase == Chosen(n) && CanProceed(s, c)
    ensures DoCommit(s, c, n).Next? && Inv(DoCommit(s, c, n).s)
  {
    hide Inv;
    hide WaitOk;
    Parts(s, c, s.cpus[c].idle);
    var s' := DoCommit(s, c, n).s;
    WaitsStay(s, s', c, n);
    forall u | u in s'.tasks && s'.tasks[u].cpu == c ensures TaskOk(s', u) { Parts(s, c, u); }
    TouchKeeps(s, s', c, n);
  }

  lemma ExitKeeps(s: State, c: CpuId)
    requires Inv(s) && Allowed(s, c, Exit)
    ensures Inv(Step(s, c, Exit).s)
  {
    hide Inv;
    hide WaitOk;
    Parts(s, c, s.cpus[c].idle);
    var t := s.cpus[c].current.value;
    var s' := Step(s, c, Exit).s;
    WaitsStay(s, s', c, t);
    forall u | u in s'.tasks && s'.tasks[u].cpu == c ensures TaskOk(s', u) { Parts(s, c, u); }
    TouchKeeps(s, s', c, t);
  }

  lemma PhaseKeeps(s: State, c: CpuId, p: Phase)
    requires Inv(s) && c in s.cpus
    requires (s.cpus[c].phase == Out && p == Switching) || (s.cpus[c].phase == Started && p == Out)
    ensures Inv(SetCpu(s, c, s.cpus[c].(phase := p)))
  {
    hide Inv;
    hide WaitOk;
    Parts(s, c, s.cpus[c].idle);
    var t := s.cpus[c].idle;
    var s' := SetCpu(s, c, s.cpus[c].(phase := p));
    WaitsStay(s, s', c, t);
    forall u | u in s'.tasks && s'.tasks[u].cpu == c ensures TaskOk(s', u) { Parts(s, c, u); }
    TouchKeeps(s, s', c, t);
  }

  // ---------- what a step can do ----------

  /** The stops that remain: idle (or nobody) blocks, a waiter is woken, or on a CPU's very first switch
      work arrives after idle was chosen.  No other assertion can fail. */
  ghost predicate Stops(s: State, c: CpuId, op: Op)
    requires c in s.cpus
  {
    var k := s.cpus[c];
    || (op.Block? && (k.current.None? || k.current == Some(k.idle)))
    || (op.Wake? && op.w in s.waits && s.waits[op.w] != [])
    || (op.Proceed? && k.phase == Started && k.current == Some(k.idle) && k.runq != [])
  }

  lemma StepKeepsInv(s: State, c: CpuId, op: Op)
    requires Inv(s) && Allowed(s, c, op)
    ensures Step(s, c, op).Stop? <==> Stops(s, c, op)
    ensures Step(s, c, op).Next? ==> Inv(Step(s, c, op).s)
  {
    hide Inv;
    hide DoEnqueue;
    hide DoDequeue;
    hide DoBlock;
    hide DoWait;
    hide DoPutBack;
    hide DoPick;
    hide DoCommit;
    match op {
      case Create(t, home) => CreateKeeps(s, t, home);
      case Enqueue(t) => EnqueueKeeps(s, t);
      case Dequeue(t) => DequeueKeeps(s, t);
      case Block(w) => BlockKeeps(s, c, w);
      case Yield => PhaseKeeps(s, c, Switching);
      case Exit => ExitKeeps(s, c);
      case Wake(w) =>
      case Proceed =>
        match s.cpus[c].phase {
          case Blocking(w) => WaitKeeps(s, c, w);
          case Switching => PutBackKeeps(s, c);
          case Picking => PickKeeps(s, c);
          case Taking => PickKeeps(s, c);
          case Chosen(n) => CommitKeeps(s, c, n);
          case Started => if !Stops(s, c, op) { PhaseKeeps(s, c, Out); }
        }
    }
  }

  /** The step takes the head of CPU d's queue. */
  ghost predicate Takes(s: State, c: CpuId, op: Op, d: CpuId) {
    c == d && op == Proceed && d in s.cpus && s.cpus[d].phase == Taking && s.cpus[d].runq != []
  }

  /** The step completes a switch of CPU d: the chosen task becomes current. */
  ghost predicate Commits(s: State, c: CpuId, op: Op, d: CpuId) {
    c == d && op == Proceed && d in s.cpus && s.cpus[d].phase.Chosen?
  }

  /** The step puts CPU d's current task, which still runs, back on the queue. */
  ghost predicate PutsBack(s: State, c: CpuId, op: Op, d: CpuId) {
    && c == d && op == Proceed && d in s.cpus && s.cpus[d].phase == Switching
    && s.cpus[d].current.Some? && s.cpus[d].current.value in s.tasks && s.cpus[d].current.value != s.cpus[d].idle
    && s.tasks[s.cpus[d].current.value].state == Running
  }

  /** q' is q without t, the others in their order. */
  ghost predicate Without(q: seq<Tid>, t: Tid, q': seq<Tid>) {
    exists i :: 0 <= i < |q| && q[i] == t && q' == q[..i] + q[i + 1..] && t !in q'
  }

  /** First in, first out: a run queue gains the task enqueued for its CPU, or the current one that a switch puts back,
      at its tail, loses its head to a switch, loses just the task dequeued by name, and never changes otherwise. */
  lemma QueueLaw(s: State, c: CpuId, op: Op, d: CpuId)
    requires Inv(s) && Allowed(s, c, op) && Step(s, c, op).Next? && d in s.cpus
    ensures var s' := Step(s, c, op).s;
            && d in s'.cpus
            && var q, q' := s.cpus[d].runq, s'.cpus[d].runq;
               if Takes(s, c, op, d) then q' == q[1..] && s'.cpus[d].phase == Chosen(q[0])
               else if op.Enqueue? && s.tasks[op.t].cpu == d then q' == q + [op.t]
               else if PutsBack(s, c, op, d) then q' == q + [s.cpus[d].current.value]
               else if op.Dequeue? && s.tasks[op.t].cpu == d then Without(q, op.t, q')
               else q' == q
  {
    hide Inv;
    if op.Enqueue? {
      EnqueueKeeps(s, op.t);
    } else if op.Dequeue? && s.tasks[op.t].cpu == d {
      Parts(s, d, op.t);
      var q := s.cpus[d].runq;
      var i :| 0 <= i < |q| && q[i] == op.t;
      RemovedAt(q, i);
      RemovedKeeps(q, op.t);
    }
  }

  /** What becomes of task u: who enqueues it makes it READY, its CPU marks it BLOCKED, gives it its wait queue, puts it
      back READY, makes it RUNNING or DEAD, and nothing else touches it. */
  ghost function TaskAfter(s: State, c: CpuId, op: Op, u: Tid): Task
    requires Allowed(s, c, op) && u in s.tasks
  {
    var x, k := s.tasks[u], s.cpus[c];
    if op == Enqueue(u) then x.(state := Ready)
    else if op == Proceed && k.phase == Chosen(u) then x.(state := Running)
    else if k.current != Some(u) then x
    else if op.Block? then x.(state := Blocked)
    else if op == Exit then x.(state := Dead)
    else if op == Proceed && k.phase.Blocking? then x.(waitingOn := Some(k.phase.w))
    else if PutsBack(s, c, op, c) then x.(state := Ready)
    else x
  }

  lemma TaskLaw(s: State, c: CpuId, op: Op, u: Tid)
    requires Inv(s) && Allowed(s, c, op) && Step(s, c, op).Next?
    ensures var s' := Step(s, c, op).s;
            && (u in s.tasks ==> u in s'.tasks && s'.tasks[u] == TaskAfter(s, c, op, u))
            && (u !in s.tasks ==> (u in s'.tasks <==> op.Create? && op.t == u))
            && (op.Create? ==> op.t in s'.tasks && s'.tasks[op.t] == Task(op.home, Ready, None))
  {
    hide Inv;
    Parts(s, c, u);
    if op.Enqueue? { EnqueueKeeps(s, op.t); }
  }

  /** A wait queue gains a task, at its tail, only when the task's CPU has marked it for that queue; it loses none. */
  lemma WaitLaw(s: State, c: CpuId, op: Op, w: WqId)
    requires Inv(s) && Allowed(s, c, op) && Step(s, c, op).Next? && w in s.waits
    ensures var s' := Step(s, c, op).s;
            && w in s'.waits
            && s'.waits[w] == if op == Proceed && s.cpus[c].phase == Blocking(w)
                              then s.waits[w] + [s.cpus[c].current.value] else s.waits[w]
  {
    hide Inv;
  }

  /** Where a step of its own takes a CPU. */
  ghost predicate PhaseAfter(k: Cpu, op: Op, p: Phase) {
    match op
    case Block(w) => p == Blocking(w)
    case Yield => p == Switching
    case Exit => p == Switching
    case Proceed =>
      (match k.phase
       case Blocking(_) => p == Switching
       case Switching => p == Picking
       case Picking => p == if k.runq == [] then Chosen(k.idle) else Taking
       case Taking => p == Chosen(if k.runq == [] then k.idle else k.runq[0])
       case Chosen(_) => p == if k.current.None? then Started else Out
       case Started => p == Out
       case Out => false)
    case _ => p == k.phase
  }

  /** Only a CPU's own steps change its current task and its place in a switch, and it changes its current task only at
      the end of one, to the task chosen. */
  lemma CpuLaw(s: State, c: CpuId, op: Op, d: CpuId)
    requires Inv(s) && Allowed(s, c, op) && Step(s, c, op).Next? && d in s.cpus
    ensures var s' := Step(s, c, op).s;
            && d in s'.cpus && s'.cpus.Keys == s.cpus.Keys && s'.cpus[d].idle == s.cpus[d].idle
            && s'.cpus[d].current ==
               (if Commits(s, c, op, d) then Some(s.cpus[d].phase.next) else s.cpus[d].current)
            && if c == d then PhaseAfter(s.cpus[d], op, s'.cpus[d].phase) else s'.cpus[d].phase == s.cpus[d].phase
  {
    hide Inv;
    if op.Enqueue? { EnqueueKeeps(s, op.t); }
  }

  /** A queued task either moves up, stays, is taken, or is dequeued by name. */
  lemma Advances(s: State, c: CpuId, op: Op, d: CpuId, k: nat)
    requires Inv(s) && Allowed(s, c, op) && Step(s, c, op).Next? && d in s.cpus && k < |s.cpus[d].runq|
    requires op != Dequeue(s.cpus[d].runq[k])
    ensures var s' := Step(s, c, op).s;
            && d in s'.cpus
            && var q, k' := s.cpus[d].runq, s'.cpus[d];
               if Takes(s, c, op, d)
               then if k == 0 then k'.phase == Chosen(q[0]) else k - 1 < |k'.runq| && k'.runq[k - 1] == q[k]
               else exists j: nat :: j <= k && j < |k'.runq| && k'.runq[j] == q[k]
  {
    hide Inv;
    QueueLaw(s, c, op, d);
    Parts(s, d, s.cpus[d].idle);
    var q, q' := s.cpus[d].runq, Step(s, c, op).s.cpus[d].runq;
    if !Takes(s, c, op, d) {
      if op.Dequeue? && s.tasks[op.t].cpu == d {
        var i :| 0 <= i < |q| && q[i] == op.t && q' == q[..i] + q[i + 1..];
        if i < k { assert q'[k - 1] == q[k]; } else { assert q'[k] == q[k]; }
      } else {
        assert q'[k] == q[k];
      }
    }
  }

  /** Idle is chosen only at a moment when the run queue is empty. */
  lemma IdleOnlyWhenEmpty(s: State, c: CpuId)
    requires Inv(s) && CanProceed(s, c) && (s.cpus[c].phase == Picking || s.cpus[c].phase == Taking)
    ensures DoProceed(s, c).Next? && (DoProceed(s, c).s.cpus[c].phase == Chosen(s.cpus[c].idle) <==>
                                      s.cpus[c].runq == [])
  {
    assert RunOk(s, c);
  }

  /** A chosen task stays chosen until its own CPU makes it current. */
  lemma ChosenRuns(s: State, c: CpuId, op: Op, d: CpuId, n: Tid)
    requires Inv(s) && Allowed(s, c, op) && Step(s, c, op).Next? && d in s.cpus && s.cpus[d].phase == Chosen(n)
    ensures var s' := Step(s, c, op).s;
            && d in s'.cpus
            && if c == d && op == Proceed then s'.cpus[d].current == Some(n) && n in s'.tasks
               && s'.tasks[n].state == Running
               else s'.cpus[d].phase == Chosen(n)
  {
    hide Inv;
    Parts(s, d, n);
  }

  /** Nothing but a stop ends a BLOCKED task's wait. */
  lemma BlockedStays(s: State, c: CpuId, op: Op, t: Tid)
    requires Inv(s) && Allowed(s, c, op) && Step(s, c, op).Next? && t in s.tasks && s.tasks[t].state == Blocked
    ensures t in Step(s, c, op).s.tasks && Step(s, c, op).s.tasks[t].state == Blocked
  {
    hide Inv;
    Parts(s, c, t);
  }

  /** The scheduler has the task: it is queued on its CPU, chosen there, or RUNNING there. */
  ghost predicate InHand(s: State, t: Tid) {
    && t in s.tasks && s.tasks[t].cpu in s.cpus && !IsIdle(s, t)
    && var k := s.cpus[s.tasks[t].cpu];
       t in k.runq || k.phase == Chosen(t) || (s.tasks[t].state == Running && k.current == Some(t))
  }

  /** It is dequeued by name, or itself blocks or exits. */
  ghost predicate LetsGo(s: State, c: CpuId, op: Op, t: Tid) {
    op == Dequeue(t) || ((op.Block? || op == Exit) && c in s.cpus && s.cpus[c].current == Some(t))
  }

  /** Nothing else makes the scheduler lose a task. */
  lemma StaysInHand(s: State, c: CpuId, op: Op, t: Tid)
    requires Inv(s) && Allowed(s, c, op) && Step(s, c, op).Next? && InHand(s, t) && !LetsGo(s, c, op, t)
    ensures InHand(Step(s, c, op).s, t)
  {
    hide Inv;
    hide Step;
    var d := s.tasks[t].cpu;
    var k := s.cpus[d];
    Parts(s, d, t);
    TaskLaw(s, c, op, t);
    CpuLaw(s, c, op, d);
    if t in k.runq {
      var i :| 0 <= i < |k.runq| && k.runq[i] == t;
      Advances(s, c, op, d, i);
    } else {
      QueueLaw(s, c, op, d);
      NotRunningTwice(s, c, op, t);
    }
  }

  /** A step of another CPU does not touch a task that is chosen or current on this one. */
  lemma NotRunningTwice(s: State, c: CpuId, op: Op, t: Tid)
    requires Inv(s) && Allowed(s, c, op) && InHand(s, t) && t !in s.cpus[s.tasks[t].cpu].runq
    ensures op != Enqueue(t) && (c != s.tasks[t].cpu ==> s.cpus[c].current != Some(t) && s.cpus[c].phase != Chosen(t))
  {
    hide Inv;
    Parts(s, c, t);
  }

  // ---------- runs ----------

  datatype Event = Event(c: CpuId, op: Op)

  ghost predicate StepsTo(s: State, e: Event, s': State) {
    Allowed(s, e.c, e.op) && Step(s, e.c, e.op) == Next(s')
  }

  /** Any interleaving of the CPUs' steps that has not stopped. */
  ghost predicate IsRun(states: seq<State>, events: seq<Event>) {
    && |states| == |events| + 1 && Init(states[0])
    && forall i :: 0 <= i < |events| ==> StepsTo(states[i], events[i], states[i+1])
  }

  lemma {:induction false} RunKeepsInv(states: seq<State>, events: seq<Event>, n: nat)
    requires IsRun(states, events) && n < |states|
    ensures Inv(states[n])
  {
    hide Inv;
    hide Allowed;
    hide Step;
    if n == 0 {
      InitOk(states[0]);
    } else {
      RunKeepsInv(states, events, n - 1);
      assert StepsTo(states[n-1], events[n-1], states[n]);
      StepKeepsInv(states[n-1], events[n-1].c, events[n-1].op);
    }
  }

  /** In every state of every run: queues hold what they should, no task is on two queues or twice on one,
      and away from a switch in progress a task is RUNNING exactly when it is its CPU's current one. */
  lemma RunIsSafe(states: seq<State>, events: seq<Event>, n: nat, t: Tid)
    requires IsRun(states, events) && n < |states| && t in states[n].tasks && !IsIdle(states[n], t)
    ensures var s, x := states[n], states[n].tasks[t];
            && x.cpu in s.cpus
            && (forall c :: c in s.cpus && t in s.cpus[c].runq ==> x == Task(c, Ready, None))
            && (forall w :: w in s.waits ==> (t in s.waits[w] <==> x.waitingOn == Some(w)))
            && (forall c :: c in s.cpus ==> NoDup(s.cpus[c].runq))
            && (forall w :: w in s.waits ==> NoDup(s.waits[w]))
            && (x.waitingOn.Some? ==> x.state == Blocked)
            && (x.state == Running ==> s.cpus[x.cpu].current == Some(t))
            && (s.cpus[x.cpu].phase == Out ==> (x.state == Running <==> s.cpus[x.cpu].current == Some(t)))
  {
    RunKeepsInv(states, events, n);
    var s := states[n];
    assert TaskOk(s, t);
    assert CpuOk(s, s.tasks[t].cpu);
    forall c | c in s.cpus ensures NoDup(s.cpus[c].runq)
      && (t in s.cpus[c].runq ==> s.tasks[t] == Task(c, Ready, None)) {
      assert RunOk(s, c);
    }
    forall w | w in s.waits ensures NoDup(s.waits[w]) && (t in s.waits[w] <==> s.tasks[t].waitingOn == Some(w)) {
      assert WaitOk(s, w);
    }
  }

  /** No task is lost: from the step that enqueues it on, a task is queued, chosen or running in every state until it is
      dequeued by name, blocks or exits. */
  lemma {:induction false} NoTaskLost(states: seq<State>, events: seq<Event>, i: nat, j: nat, t: Tid)
    requires IsRun(states, events) && i < j < |states| && events[i].op == Enqueue(t)
    requires forall x :: i < x < j ==> !LetsGo(states[x], events[x].c, events[x].op, t)
    ensures InHand(states[j], t)
    decreases j - i
  {
    hide Inv;
    hide Allowed;
    hide Step;
    hide InHand;
    hide LetsGo;
    RunKeepsInv(states, events, j - 1);
    assert StepsTo(states[j-1], events[j-1], states[j]);
    if i == j - 1 {
      Enqueued(states[i], events[i].c, t);
    } else {
      NoTaskLost(states, events, i, j - 1, t);
      StaysInHand(states[j-1], events[j-1].c, events[j-1].op, t);
    }
  }

  /** Enqueueing puts a task last on its own CPU's queue, READY, and touches nothing else. */
  lemma Enqueued(s: State, c: CpuId, t: Tid)
    requires Inv(s) && Allowed(s, c, Enqueue(t))
    ensures Step(s, c, Enqueue(t)).Next?
    ensures var s', d := Step(s, c, Enqueue(t)).s, s.tasks[t].cpu;
            && s'.tasks == s.tasks[t := Task(d, Ready, None)] && s'.waits == s.waits
            && s'.cpus == s.cpus[d := s.cpus[d].(runq := s.cpus[d].runq + [t])]
            && InHand(s', t)
  {
    hide Inv;
    EnqueueKeeps(s, t);
    Parts(s, s.tasks[t].cpu, t);
    var s', d := Step(s, c, Enqueue(t)).s, s.tasks[t].cpu;
    assert s'.cpus[d].runq[|s.cpus[d].runq|] == t;
  }

  /** Waking is dead code as far as waiters go: once BLOCKED, a task is BLOCKED in every later state. */
  lemma {:induction false} NoWaiterReturns(states: seq<State>, events: seq<Event>, i: nat, j: nat, t: Tid)
    requires IsRun(states, events) && i <= j < |states| && t in states[i].tasks && states[i].tasks[t].state == Blocked
    ensures t in states[j].tasks && states[j].tasks[t].state == Blocked
    decreases j - i
  {
    hide Inv;
    hide Allowed;
    hide Step;
    if i < j {
      NoWaiterReturns(states, events, i, j - 1, t);
      RunKeepsInv(states, events, j - 1);
      assert StepsTo(states[j-1], events[j-1], states[j]);
      BlockedStays(states[j-1], events[j-1].c, events[j-1].op, t);
    }
  }

  /** The next task of CPU d is decided and the switch not yet complete. */
  ghost function Pending(s: State, d: CpuId): nat {
    if d in s.cpus && s.cpus[d].phase.Chosen? then 1 else 0
  }

  /** A CPU whose queue is not empty decides on its next task only by taking the head, never on idle. */
  lemma DecidesByTaking(s: State, c: CpuId, op: Op, d: CpuId)
    requires Inv(s) && Allowed(s, c, op) && Step(s, c, op).Next? && d in s.cpus && s.cpus[d].runq != []
    ensures var s' := Step(s, c, op).s;
            && d in s'.cpus
            && (Takes(s, c, op, d) ==> Pending(s, d) == 0 && Pending(s', d) == 1)
            && (Commits(s, c, op, d) ==> Pending(s, d) == 1 && Pending(s', d) == 0)
            && (!Takes(s, c, op, d) && !Commits(s, c, op, d) ==> Pending(s', d) == Pending(s, d))
  {
    hide Inv;
    Parts(s, d, s.cpus[d].idle);
  }

  /** How many switches CPU d completes between states i and j. */
  ghost function SwitchCount(states: seq<State>, events: seq<Event>, d: CpuId, i: nat, j: nat): nat
    requires IsRun(states, events) && i <= j < |states|
    decreases j - i
  {
    if i == j then 0
    else (if Commits(states[i], events[i].c, events[i].op, d) then 1 else 0) + SwitchCount(states, events, d, i + 1, j)
  }

  /** Task t is current on CPU d and RUNNING. */
  ghost predicate RunsOn(s: State, d: CpuId, t: Tid) {
    d in s.cpus && s.cpus[d].current == Some(t) && t in s.tasks && s.tasks[t].state == Running
  }

  /** A chosen task runs from the next switch of its CPU. */
  lemma {:induction false} ChosenWait(states: seq<State>, events: seq<Event>, d: CpuId, t: Tid, i: nat, j: nat)
    returns (m: nat)
    requires IsRun(states, events) && i <= j < |states|
    requires d in states[i].cpus && states[i].cpus[d].phase == Chosen(t)
    requires 0 < SwitchCount(states, events, d, i, j)
    ensures i < m <= j && RunsOn(states[m], d, t)
    decreases j - i
  {
    hide Inv;
    hide Allowed;
    hide Step;
    RunKeepsInv(states, events, i);
    assert StepsTo(states[i], events[i], states[i+1]);
    ChosenRuns(states[i], events[i].c, events[i].op, d, t);
    if Commits(states[i], events[i].c, events[i].op, d) {
      m := i + 1;
    } else {
      m := ChosenWait(states, events, d, t, i + 1, j);
    }
  }

  /** Bounded waiting: a task at position k runs from the (k+1)-th switch of its CPU on at the latest, whatever
      arrives meanwhile, unless somebody dequeues it by name.  A switch whose task is already decided comes
      on top. */
  lemma {:induction false} BoundedWait(states: seq<State>, events: seq<Event>, d: CpuId, t: Tid, k: nat, i: nat, j: nat)
    returns (m: nat)
    requires IsRun(states, events) && i <= j < |states|
    requires d in states[i].cpus && k < |states[i].cpus[d].runq| && states[i].cpus[d].runq[k] == t
    requires forall x :: i <= x < j ==> events[x].op != Dequeue(t)
    requires k + Pending(states[i], d) < SwitchCount(states, events, d, i, j)
    ensures i < m <= j && RunsOn(states[m], d, t)
    decreases j - i
  {
    hide Inv;
    hide Allowed;
    hide Step;
    RunKeepsInv(states, events, i);
    assert StepsTo(states[i], events[i], states[i+1]);
    Advances(states[i], events[i].c, events[i].op, d, k);
    DecidesByTaking(states[i], events[i].c, events[i].op, d);
    if Takes(states[i], events[i].c, events[i].op, d) {
      if k == 0 {
        m := ChosenWait(states, events, d, t, i + 1, j);
      } else {
        m := BoundedWait(states, events, d, t, k - 1, i + 1, j);
      }
    } else {
      var k': nat :| k' <= k && k' < |states[i+1].cpus[d].runq| && states[i+1].cpus[d].runq[k'] == t;
      m := BoundedWait(states, events, d, t, k', i + 1, j);
    }
  }

  /** And so an enqueued task runs once its CPU has switched more often than there were tasks before it. */
  lemma EnqueuedRuns(states: seq<State>, events: seq<Event>, d: CpuId, t: Tid, i: nat, j: nat) returns (m: nat)
    requires IsRun(states, events) && i < j < |states| && events[i].op == Enqueue(t)
    requires t in states[i].tasks && states[i].tasks[t].cpu == d && d in states[i].cpus
    requires forall x :: i < x < j ==> events[x].op != Dequeue(t)
    requires |states[i].cpus[d].runq| + Pending(states[i], d) < SwitchCount(states, events, d, i + 1, j)
    ensures i < m <= j && RunsOn(states[m], d, t)
  {
    hide Inv;
    hide Allowed;
    hide Step;
    RunKeepsInv(states, events, i);
    assert StepsTo(states[i], events[i], states[i+1]);
    Enqueued(states[i], events[i].c, t);
    m := BoundedWait(states, events, d, t, |states[i].cpus[d].runq|, i + 1, j);
  }

  // ---------- the same operations in place, uninterrupted ----------

  /** One CPU going through the whole of a call on its own. */
  class Machine {
    var tasks: map<Tid, Task>
    var cpus: map<CpuId, Cpu>
    var waits: map<WqId, seq<Tid>>

    ghost function Now(): State
      reads this
    {
      State(tasks, cpus, waits)
    }

    constructor (s: State)
      ensures Now() == s
    {
      tasks, cpus, waits := s.tasks, s.cpus, s.waits;
    }

    method RunqueueEnqueue(c: CpuId, t: Tid)
      requires c in cpus
      modifies this`cpus
      ensures cpus == old(cpus)[c := old(cpus)[c].(runq := old(cpus)[c].runq + [t])]
    {
      cpus := cpus[c := cpus[c].(runq := cpus[c].runq + [t])];
    }

    method SchedulerEnqueue(t: Tid) returns (stopped: bool)
      requires t in tasks && tasks[t].cpu in cpus
      modifies this
      ensures stopped <==> DoEnqueue(old(Now()), t).Stop?
      ensures if stopped then Now() == old(Now()) else Next(Now()) == DoEnqueue(old(Now()), t)
      ensures stopped <==> old(tasks)[t].state in {Running, Blocked} || old(tasks)[t].waitingOn.Some?
      ensures !stopped ==>
                var d := old(tasks)[t].cpu;
                && tasks == old(tasks)[t := Task(d, Ready, None)] && waits == old(waits)
                && cpus == old(cpus)[d := old(cpus)[d].(runq := old(cpus)[d].runq + [t])]
    {
      if tasks[t].state == Running || tasks[t].state == Blocked || tasks[t].waitingOn.Some? {
        return true;
      }
      tasks := tasks[t := Task(tasks[t].cpu, Ready, None)];
      RunqueueEnqueue(tasks[t].cpu, t);
      return false;
    }

    /** scheduler_dequeue: it stops unless the task is READY and names no wait queue; one that is leaves its queue. */
    method SchedulerDequeue(t: Tid) returns (stopped: bool)
      requires Inv(Now()) && t in tasks && tasks[t].cpu in cpus
      requires tasks[t].state == Ready && tasks[t].waitingOn.None? ==> t in cpus[tasks[t].cpu].runq
      modifies this`cpus
      ensures stopped <==> tasks[t].state != Ready || tasks[t].waitingOn.Some?
      ensures Inv(Now()) && (stopped ==> cpus == old(cpus))
      ensures !stopped ==>
                var d := tasks[t].cpu;
                && d in cpus && cpus == old(cpus)[d := old(cpus)[d].(runq := cpus[d].runq)]
                && Without(old(cpus)[d].runq, t, cpus[d].runq)
    {
      hide Inv;
      if tasks[t].state != Ready || tasks[t].waitingOn.Some? {
        return true;
      }
      Parts(Now(), tasks[t].cpu, t);
      DequeueKeeps(Now(), t);
      QueueLaw(Now(), tasks[t].cpu, Dequeue(t), tasks[t].cpu);
      var c := tasks[t].cpu;
      cpus := cpus[c := cpus[c].(runq := Removed(cpus[c].runq, t))];
      return false;
    }

    /** scheduler_wake_one: with anybody waiting, it takes the waiter off the queue and stops. */
    method WakeOne(w: WqId) returns (stopped: bool)
      requires Inv(Now()) && w in waits
      modifies this
      ensures stopped <==> old(waits)[w] != []
      ensures !stopped ==> Now() == old(Now())
    {
      if waits[w] == [] {
        return false;
      }
      var t := waits[w][0];
      assert t in waits[w] && WaitOk(Now(), w) && TaskOk(Now(), t);
      waits := waits[w := waits[w][1..]];
      tasks := tasks[t := tasks[t].(waitingOn := None)];
      if tasks[t].state != Blocked {
        return true;
      }
      stopped := SchedulerEnqueue(t);
    }

    /** scheduler_wake_all: its loop never gets past the first waiter. */
    method WakeAll(w: WqId) returns (stopped: bool)
      requires Inv(Now()) && w in waits
      modifies this
      ensures stopped <==> old(waits)[w] != []
      ensures !stopped ==> Now() == old(Now())
    {
      stopped := false;
      while !stopped && waits[w] != []
        invariant if stopped then old(waits)[w] != [] else Now() == old(Now())
        decreases !stopped
      {
        stopped := WakeOne(w);
      }
    }

    /** scheduler_block_current: it stops exactly if idle or nobody is current; else the current task is BLOCKED, last
        on the wait queue, and off its CPU, which runs the next. */
    method BlockCurrent(c: CpuId, w: WqId) returns (stopped: bool)
      requires Inv(Now()) && c in cpus && cpus[c].phase == Out && w in waits
      modifies this
      ensures stopped <==> old(cpus)[c].current.None? || old(cpus)[c].current == Some(old(cpus)[c].idle)
      ensures if stopped then Now() == old(Now())
              else
                var t, k := old(cpus)[c].current.value, old(cpus)[c];
                && Inv(Now()) && c in cpus && cpus[c].phase == Out && waits == old(waits)[w := old(waits)[w] + [t]]
                && t in tasks && tasks[t] == Task(c, Blocked, Some(w))
                && cpus[c].current == Some(if k.runq == [] then k.idle else k.runq[0])
                && cpus[c].runq == (if k.runq == [] then [] else k.runq[1..])
    {
      hide Inv;
      Parts(Now(), c, cpus[c].idle);
      BlockKeeps(Now(), c, w);
      if cpus[c].current.None? || cpus[c].current.value == cpus[c].idle {
        return true;
      }
      var t := cpus[c].current.value;
      Parts(Now(), c, t);
      if tasks[t].cpu != c || tasks[t].state != Running || tasks[t].waitingOn.Some? {
        return true;
      }
      BlockedWaits(Now(), c, w);
      tasks := tasks[t := tasks[t].(state := Blocked)];
      tasks := tasks[t := tasks[t].(waitingOn := Some(w))];
      waits := waits[w := waits[w] + [t]];
      cpus := cpus[c := cpus[c].(phase := Switching)];
      assert tasks == old(tasks)[t := Task(c, Blocked, Some(w))];
      ghost var s := Now();
      Parts(s, c, t);
      stopped := Switch(c);
    }

    /** The head of scheduler_switch. */
    method PutBack(c: CpuId) returns (stopped: bool)
      requires CanProceed(Now(), c)
      modifies this
      ensures stopped <==> DoPutBack(old(Now()), c).Stop?
      ensures !stopped ==> Next(Now()) == DoPutBack(old(Now()), c)
    {
      var k := cpus[c];
      if k.current.Some? {
        var x := tasks[k.current.value];
        if x.cpu != c || (x.state == Blocked && x.waitingOn.None?) || (x.state != Blocked && x.waitingOn.Some?) {
          return true;
        }
        if k.current.value != k.idle && x.state == Running {
          tasks := tasks[k.current.value := x.(state := Ready)];
          RunqueueEnqueue(c, k.current.value);
        }
      }
      cpus := cpus[c := cpus[c].(phase := Picking)];
      return false;
    }

    /** scheduler_policy_pick_next, with idle when it finds nothing. */
    method PickNext(c: CpuId) returns (next: Tid)
      requires Inv(Now()) && c in cpus && cpus[c].phase == Picking
      modifies this`cpus
      ensures Inv(Now()) && waits == old(waits)
      ensures var k := old(cpus)[c];
              && next == (if k.runq == [] then k.idle else k.runq[0])
              && cpus == old(cpus)[c := k.(runq := if k.runq == [] then [] else k.runq[1..], phase := Chosen(next))]
    {
      hide Inv;
      ghost var s := Now();
      PickKeeps(s, c);
      next := cpus[c].idle;
      if cpus[c].runq != [] {
        PickTwice(s, c);
        next := cpus[c].runq[0];
        cpus := cpus[c := cpus[c].(runq := cpus[c].runq[1..])];
      }
      cpus := cpus[c := cpus[c].(phase := Chosen(next))];
      assert cpus == s.cpus[c := s.cpus[c].(runq := cpus[c].runq, phase := Chosen(next))];
    }

    /** The tail of scheduler_switch. */
    method Commit(c: CpuId, next: Tid) returns (stopped: bool)
      requires CanProceed(Now(), c) && cpus[c].phase == Chosen(next)
      modifies this
      ensures stopped <==> DoCommit(old(Now()), c, next).Stop?
      ensures !stopped ==> Next(Now()) == DoCommit(old(Now()), c, next)
    {
      var x := tasks[next];
      if x.cpu != c || (x.state != Ready && next != cpus[c].idle) || x.waitingOn.Some? {
        return true;
      }
      tasks := tasks[next := x.(state := Running)];
      cpus := cpus[c := cpus[c].(current := Some(next), phase := if cpus[c].current.None? then Started else Out)];
      return false;
    }

    /** scheduler_switch, entered with Switching: round robin on CPU c's queue, and no assertion fails. */
    method Switch(c: CpuId) returns (stopped: bool)
      requires Inv(Now()) && CanProceed(Now(), c) && cpus[c].phase == Switching
      modifies this
      ensures !stopped && Inv(Now()) && c in cpus && cpus[c].phase == Out && waits == old(waits)
      ensures var q := Waiting(old(Now()), c);
              && cpus[c].runq == (if q == [] then [] else q[1..])
              && cpus[c].current == Some(if q == [] then old(cpus)[c].idle else q[0])
      ensures cpus.Keys == old(cpus).Keys && forall d :: d in cpus && d != c ==> cpus[d] == old(cpus)[d]
      ensures AllSwitched(old(Now()), c, tasks)
    {
      hide Inv;
      hide AllSwitched;
      hide DoPutBack;
      hide DoCommit;
      hide Waiting;
      ghost var s := Now();
      PutBackKeeps(Now(), c);
      PutBackIs(Now(), c);
      stopped := PutBack(c);
      ghost var s1 := Now();
      var prev := cpus[c].current;
      NotIdle(Now(), c);
      var next := PickNext(c);
      ChosenKnown(Now(), c, next);
      CommitKeeps(Now(), c, next);
      CommitIs(Now(), c, next);
      stopped := Commit(c, next);
      SwitchedBy(s, c, s1, next, tasks);
      if prev.None? {
        if next == cpus[c].idle && cpus[c].runq != [] {
          return true;
        }
        PhaseKeeps(Now(), c, Out);
        cpus := cpus[c := cpus[c].(phase := Out)];
      }
    }
  }

  /** Putting back leaves the CPU to pick from the queue as the policy sees it. */
  lemma PutBackIs(s: State, c: CpuId)
    requires Inv(s) && CanProceed(s, c) && s.cpus[c].phase == Switching
    ensures DoPutBack(s, c).Next?
    ensures var s' := DoPutBack(s, c).s;
            && s'.cpus == s.cpus[c := s.cpus[c].(runq := Waiting(s, c), phase := Picking)] && s'.waits == s.waits
            && s'.tasks.Keys == s.tasks.Keys
  {
    hide Inv;
    PutBackKeeps(s, c);
  }

  lemma NotIdle(s: State, c: CpuId)
    requires Inv(s) && c in s.cpus
    ensures s.cpus[c].idle !in s.cpus[c].runq
  {
    assert RunOk(s, c);
  }

  lemma ChosenKnown(s: State, c: CpuId, n: Tid)
    requires Inv(s) && c in s.cpus && s.cpus[c].phase == Chosen(n)
    ensures CanProceed(s, c)
  {
    assert CpuOk(s, c);
  }

  lemma CommitIs(s: State, c: CpuId, n: Tid)
    requires Inv(s) && CanProceed(s, c) && s.cpus[c].phase == Chosen(n)
    ensures DoCommit(s, c, n).Next?
    ensures var s' := DoCommit(s, c, n).s;
            && s'.cpus == s.cpus[c := s.cpus[c].(current := Some(n),
                                                 phase := if s.cpus[c].current.None? then Started else Out)]
            && s'.tasks == s.tasks[n := s.tasks[n].(state := Running)] && s'.waits == s.waits
  {
    hide Inv;
    CommitKeeps(s, c, n);
  }

  /** A blocked task is off its CPU, so the next is the head of the queue, and no switch puts it back. */
  lemma BlockedWaits(s: State, c: CpuId, w: WqId)
    requires Inv(s) && c in s.cpus && s.cpus[c].phase == Out && w in s.waits && DoBlock(s, c, w).Next?
    ensures s.cpus[c].current.Some? && s.cpus[c].current.value in s.tasks
    ensures var t, k := s.cpus[c].current.value, s.cpus[c];
            var s' := State(s.tasks[t := Task(c, Blocked, Some(w))], s.cpus[c := k.(phase := Switching)],
                            s.waits[w := s.waits[w] + [t]]);
            Inv(s') && CanProceed(s', c) && Waiting(s', c) == k.runq
  {
    hide Inv;
    BlockKeeps(s, c, w);
    var t, k := s.cpus[c].current.value, s.cpus[c];
    Parts(s, c, t);
    var s1 := DoBlock(s, c, w).s;
    Parts(s1, c, t);
    WaitKeeps(s1, c, w);
    var s2 := DoWait(s1, c, w).s;
    assert s2.tasks == s.tasks[t := Task(c, Blocked, Some(w))];
    assert s2.cpus == s.cpus[c := k.(phase := Switching)];
    assert s2.waits == s.waits[w := s.waits[w] + [t]];
  }

  lemma PickTwice(s: State, c: CpuId)
    requires Inv(s) && c in s.cpus && s.cpus[c].phase == Picking && s.cpus[c].runq != []
    ensures Inv(SetCpu(s, c, s.cpus[c].(runq := s.cpus[c].runq[1..], phase := Chosen(s.cpus[c].runq[0]))))
  {
    hide Inv;
    PickKeeps(s, c);
    var s1 := DoPick(s, c).s;
    PickKeeps(s1, c);
    assert DoPick(s1, c).s.cpus == s.cpus[c := s.cpus[c].(runq := s.cpus[c].runq[1..],
                                                          phase := Chosen(s.cpus[c].runq[0]))];
  }

  /** The run queue as the policy sees it: the current task is put back first if it still runs. */
  function Waiting(s: State, c: CpuId): seq<Tid>
    requires c in s.cpus && (s.cpus[c].current.Some? ==> s.cpus[c].current.value in s.tasks)
  {
    var k := s.cpus[c];
    if k.current.Some? && k.current.value != k.idle && s.tasks[k.current.value].state == Running
    then k.runq + [k.current.value] else k.runq
  }

  /** What a switch of CPU c makes of task u: RUNNING if it is next, READY if it was put back, else what it was. */
  function Switched(s: State, c: CpuId, u: Tid): Task
    requires c in s.cpus && (s.cpus[c].current.Some? ==> s.cpus[c].current.value in s.tasks) && u in s.tasks
  {
    var k, q, x := s.cpus[c], Waiting(s, c), s.tasks[u];
    if u == (if q == [] then k.idle else q[0]) then x.(state := Running)
    else if k.current == Some(u) && u != k.idle && x.state == Running then x.(state := Ready)
    else x
  }

  ghost predicate AllSwitched(s: State, c: CpuId, tasks: map<Tid, Task>)
    requires c in s.cpus && (s.cpus[c].current.Some? ==> s.cpus[c].current.value in s.tasks)
  {
    tasks.Keys == s.tasks.Keys && forall u :: u in tasks ==> tasks[u] == Switched(s, c, u)
  }

  lemma SwitchedBy(s: State, c: CpuId, s1: State, next: Tid, tasks: map<Tid, Task>)
    requires CanProceed(s, c) && DoPutBack(s, c) == Next(s1) && next in s1.tasks
    requires next == if s1.cpus[c].runq == [] then s1.cpus[c].idle else s1.cpus[c].runq[0]
    requires tasks == s1.tasks[next := s1.tasks[next].(state := Running)]
    ensures AllSwitched(s, c, tasks)
  {
  }

  /** scheduler_pick_cpu: an online CPU with the shortest queue, the first such; none only if no online
      queue is shorter than the largest signed 64-bit number. */
  method PickCpu(online: seq<bool>, counts: seq<nat>) returns (best: Option<nat>)
    requires |online| == |counts|
    ensures best.None? <==> forall i :: 0 <= i < |online| ==> !online[i] || 0x7FFF_FFFF_FFFF_FFFF <= counts[i]
    ensures best.Some? ==> best.value < |online| && online[best.value]
    ensures best.Some? ==> forall i :: 0 <= i < |online| && online[i] ==> counts[best.value] <= counts[i]
    ensures best.Some? ==> forall i :: 0 <= i < best.value && online[i] ==> counts[best.value] < counts[i]
  {
    best := None;
    var bestCount := 0x7FFF_FFFF_FFFF_FFFF;
    for i := 0 to |online|
      invariant best.None? ==> bestCount == 0x7FFF_FFFF_FFFF_FFFF
      invariant best.Some? ==>
                best.value < i && online[best.value] && counts[best.value] == bestCount < 0x7FFF_FFFF_FFFF_FFFF
      invariant forall j :: 0 <= j < i && online[j] ==> bestCount <= counts[j]
      invariant best.Some? ==> forall j :: 0 <= j < best.value && online[j] ==> bestCount < counts[j]
    {
      if online[i] && counts[i] < bestCount {
        best, bestCount := Some(i), counts[i];
      }
    }
  }
}
