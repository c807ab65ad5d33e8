/** Task hand-off of `dbt/util/fsmanager.cpp`: callers of SendTask and Destroy and one worker thread share a
    task slot under two mutexes and a condition variable.  Every action between two points where the
    threads can interleave is one step; any number of callers may run, and waits may end spuriously. */
module TaskHandoff {
  import opened Common

  datatype Thread = Worker | Caller(id: nat)

  /** WantLock: about to lock `cvmtx`.  Checking: evaluating the wait condition.  Ran: the task has run and
      is still in the slot.  Cleared: the slot is empty, the mutex still held.  Notifying: about to notify. */
  datatype WorkerPc = WantLock | Checking | Ran | Cleared | Notifying | Sleeping | Exited

  /** Start: before `rqmtx`.  WantCv, HasCv: around the first lock of `cvmtx`.  Stored: the slot or the flag
      has been set.  Notify: `cvmtx` released.  Recheck, Check: around the second lock.  Asleep: waiting.
      Leaving: about to release `rqmtx`. */
  datatype CallPc = Start | WantCv | HasCv | Stored | Notify | Recheck | Check | Asleep | Leaving | Done

  datatype Call = Call(destroy: bool, pc: CallPc)

  /** `runs` counts the executions of each caller's task; `late` are the callers that stored their task
      after Destroy had set `joined`. */
  datatype State = State(worker: WorkerPc, calls: map<nat, Call>, rq: Option<nat>, cv: Option<Thread>,
                         task: Option<nat>, joined: bool, runs: map<nat, nat>, late: set<nat>)

  // ---------- Steps ----------

  predicate IsAsleep(s: State, t: Thread) {
    match t
    case Worker => s.worker == Sleeping
    case Caller(id) => id in s.calls && s.calls[id].pc == Asleep
  }

  function SetPc(s: State, id: nat, pc: CallPc): State
    requires id in s.calls
  {
    s.(calls := s.calls[id := s.calls[id].(pc := pc)])
  }

  /** A thread that is woken has to lock the mutex again before it looks at the condition. */
  function Wake(s: State, t: Thread): State
    requires IsAsleep(s, t)
  {
    match t
    case Worker => s.(worker := WantLock)
    case Caller(id) => SetPc(s, id, Recheck)
  }

  /** notify_one: some sleeping thread, if there is one. */
  ghost predicate MayWake(s: State, w: Option<Thread>) {
    match w
    case Some(t) => IsAsleep(s, t)
    case None => forall t {:trigger IsAsleep(s, t)} :: !IsAsleep(s, t)
  }

  function NotifyOne(s: State, w: Option<Thread>): State
    requires w.Some? ==> IsAsleep(s, w.value)
  {
    if w.Some? then Wake(s, w.value) else s
  }

  /** The loop of the worker thread. */
  ghost predicate WorkerStep(s: State, s': State, w: Option<Thread>) {
    match s.worker
    case WantLock => s.cv.None? && s' == s.(worker := Checking, cv := Some(Worker))
    case Checking =>
      if s.joined then s' == s.(worker := Exited, cv := None)
      else if s.task.Some? then
        s.task.value in s.runs && s' == s.(worker := Ran, runs := s.runs[s.task.value := s.runs[s.task.value] + 1])
      else s' == s.(worker := Sleeping, cv := None)
    case Ran => s' == s.(worker := Cleared, task := None)
    case Cleared => s' == s.(worker := Notifying, cv := None)
    case Notifying => MayWake(s, w) && s' == NotifyOne(s, w).(worker := WantLock)
    case Sleeping => false
    case Exited => false
  }

  /** SendTask. */
  ghost predicate SendStep(s: State, s': State, id: nat, w: Option<Thread>)
    requires id in s.calls
  {
    match s.calls[id].pc
    case Start => s.rq.None? && s' == SetPc(s, id, WantCv).(rq := Some(id))
    case WantCv => s.cv.None? && s' == SetPc(s, id, HasCv).(cv := Some(Caller(id)))
    case HasCv => s' == SetPc(s, id, Stored).(task := Some(id), late := if s.joined then s.late + {id} else s.late)
    case Stored => s' == SetPc(s, id, Notify).(cv := None)
    case Notify => MayWake(s, w) && s' == SetPc(NotifyOne(s, w), id, Recheck)
    case Recheck => s.cv.None? && s' == SetPc(s, id, Check).(cv := Some(Caller(id)))
    case Check => if s.task.None? then s' == SetPc(s, id, Leaving).(cv := None) else s' == SetPc(s, id, Asleep).(cv := None)
    case Leaving => s' == SetPc(s, id, Done).(rq := None)
    case Asleep => false
    case Done => false
  }

  /** Destroy notifies while it holds both mutexes. */
  ghost predicate DestroyStep(s: State, s': State, id: nat, w: Option<Thread>)
    requires id in s.calls
  {
    match s.calls[id].pc
    case Start => s.rq.None? && s' == SetPc(s, id, WantCv).(rq := Some(id))
    case WantCv => s.cv.None? && s' == SetPc(s, id, HasCv).(cv := Some(Caller(id)))
    case HasCv => s' == SetPc(s, id, Stored).(joined := true)
    case Stored => MayWake(s, w) && s' == SetPc(NotifyOne(s, w), id, Check)
    case Check => s' == SetPc(s, id, Leaving).(cv := None)
    case Leaving => s' == SetPc(s, id, Done).(rq := None)
    case _ => false
  }

  ghost predicate CallStep(s: State, s': State, id: nat, w: Option<Thread>) {
    id in s.calls && if s.calls[id].destroy then DestroyStep(s, s', id, w) else SendStep(s, s', id, w)
  }

  ghost predicate ThreadStep(s: State, s': State, t: Thread, w: Option<Thread>) {
    match t
    case Worker => WorkerStep(s, s', w)
    case Caller(id) => CallStep(s, s', id, w)
  }

  /** A step of some thread, or a wait that ends for no reason. */
  ghost predicate Next(s: State, s': State) {
    SomeThreadSteps(s, s') || (exists t :: IsAsleep(s, t) && s' == Wake(s, t))
  }

  ghost predicate SomeThreadSteps(s: State, s': State) {
    exists t, w :: ThreadStep(s, s', t, w)
  }

  ghost predicate Init(s: State) {
    && s.worker == WantLock && s.rq.None? && s.cv.None? && s.task.None? && !s.joined && s.late == {}
    && s.runs.Keys == s.calls.Keys && (forall id | id in s.calls :: s.calls[id].pc == Start && s.runs[id] == 0)
  }

  // ---------- The invariant ----------

  /** A caller between storing its task and seeing it done. */
  predicate Awaiting(pc: CallPc) {
    pc == Notify || pc == Recheck || pc == Check || pc == Asleep
  }

  predicate WorkerHolds(pc: WorkerPc) {
    pc == Checking || pc == Ran || pc == Cleared
  }

  predicate CallHolds(pc: CallPc) {
    pc == HasCv || pc == Stored || pc == Check
  }

  /** The executions of one caller's task so far. */
  ghost predicate RunsOk(s: State, id: nat)
    requires id in s.calls && id in s.runs
  {
    var c := s.calls[id];
    if c.destroy || c.pc == Start || c.pc == WantCv || c.pc == HasCv then s.runs[id] == 0 && s.task != Some(id) && id !in s.late
    else if c.pc == Leaving || c.pc == Done then s.runs[id] == 1 && s.task != Some(id) && id !in s.late
    else if s.task == Some(id) then s.runs[id] == (if s.worker == Ran then 1 else 0) && (s.joined <==> id in s.late)
    else c.pc != Stored && s.task.None? && s.runs[id] == 1 && id !in s.late
  }

  /** One caller: mutexes are held as its program counter says, its task runs once, and if it sleeps
      although its task is done, it is about to be notified. */
  ghost predicate CallOk(s: State, id: nat)
    requires id in s.calls && id in s.runs
  {
    var c := s.calls[id];
    && (s.cv == Some(Caller(id)) <==> CallHolds(c.pc)) && (s.rq == Some(id) <==> c.pc != Start && c.pc != Done)
    && RunsOk(s, id) && (c.destroy ==> c.pc != Notify && c.pc != Recheck && c.pc != Asleep)
    && (c.pc == Asleep && s.task.None? ==> s.worker == Cleared || s.worker == Notifying)
  }

  /** The worker: a worker that sleeps although there is a task, or although it should exit, is about to
      be notified. */
  ghost predicate WorkerOk(s: State) {
    && (s.cv == Some(Worker) <==> WorkerHolds(s.worker))
    && (s.worker == Ran ==> s.task.Some?) && (s.worker == Cleared ==> s.task.None?)
    && (s.joined ==> s.worker != Ran && s.worker != Cleared) && (s.worker == Exited ==> s.joined)
    && (s.worker == Sleeping && s.task.Some? && !s.joined ==>
          s.task.value in s.calls && (s.calls[s.task.value].pc == Stored || s.calls[s.task.value].pc == Notify))
    && (s.worker == Sleeping && s.joined ==>
          s.rq.Some? && s.rq.value in s.calls && s.calls[s.rq.value].destroy && s.calls[s.rq.value].pc == Stored)
  }

  ghost predicate Inv(s: State) {
    && s.runs.Keys == s.calls.Keys && WorkerOk(s)
    && (s.rq.Some? ==> s.rq.value in s.calls) && (s.task.Some? ==> s.task.value in s.calls && s.rq == s.task)
    && (s.cv.Some? && s.cv.value.Caller? ==> s.cv.value.id in s.calls)
    && forall id {:trigger CallOk(s, id)} | id in s.calls :: CallOk(s, id)
  }

  lemma InitInv(s: State)
    requires Init(s)
    ensures Inv(s)
  {
  }

  /** Only the worker and the caller that holds `rqmtx` can be asleep. */
  lemma Sleepers(s: State, t: Thread)
    requires Inv(s) && IsAsleep(s, t)
    ensures t == Worker || (s.rq == Some(t.id) && !s.calls[t.id].destroy)
  {
    if t.Caller? {
      assert CallOk(s, t.id);
    }
  }

  lemma WakeKeeps(s: State, t: Thread)
    requires Inv(s) && IsAsleep(s, t)
    ensures Inv(Wake(s, t))
  {
    var s' := Wake(s, t);
    if t.Caller? {
      assert CallOk(s, t.id);
    }
    forall id | id in s'.calls ensures CallOk(s', id) {
      assert CallOk(s, id);
    }
  }

  /** notify_one by a thread that holds `rqmtx` reaches the worker if it sleeps. */
  lemma NotifiesWorker(s: State, id: nat, w: Option<Thread>)
    requires Inv(s) && MayWake(s, w) && s.rq == Some(id) && id in s.calls && s.calls[id].pc != Asleep
    ensures NotifyOne(s, w) == if s.worker == Sleeping then s.(worker := WantLock) else s
  {
    if w.Some? {
      Sleepers(s, w.value);
    } else {
      assert !IsAsleep(s, Worker);
    }
  }

  /** notify_one by the worker reaches the caller that waits for it, if it sleeps. */
  lemma NotifiesCaller(s: State, w: Option<Thread>)
    requires Inv(s) && MayWake(s, w) && s.worker != Sleeping
    ensures NotifyOne(s, w) == if s.rq.Some? && s.calls[s.rq.value].pc == Asleep then SetPc(s, s.rq.value, Recheck) else s
  {
    if w.Some? {
      Sleepers(s, w.value);
    } else if s.rq.Some? {
      assert !IsAsleep(s, Caller(s.rq.value));
    }
  }

  lemma WorkerNotifyKeeps(s: State, s': State, w: Option<Thread>)
    requires Inv(s) && WorkerStep(s, s', w) && s.worker == Notifying
    ensures Inv(s')
  {
    NotifiesCaller(s, w);
    if s.rq.Some? {
      assert CallOk(s, s.rq.value);
    }
    forall id | id in s'.calls ensures CallOk(s', id) {
      assert CallOk(s, id);
    }
  }

  lemma WorkerKeeps(s: State, s': State, w: Option<Thread>)
    requires Inv(s) && WorkerStep(s, s', w)
    ensures Inv(s')
  {
    if s.worker == Notifying {
      WorkerNotifyKeeps(s, s', w);
    } else {
      if s.rq.Some? {
        assert CallOk(s, s.rq.value);
      }
      forall id | id in s'.calls ensures CallOk(s', id) {
        assert CallOk(s, id);
      }
    }
  }

  predicate BeforeNotify(pc: CallPc) {
    pc == Start || pc == WantCv || pc == HasCv || pc == Stored
  }

  lemma SendStoreKeeps(s: State, s': State, id: nat, w: Option<Thread>)
    requires Inv(s) && id in s.calls && !s.calls[id].destroy && SendStep(s, s', id, w) && BeforeNotify(s.calls[id].pc)
    ensures Inv(s')
  {
    assert CallOk(s, id);
    forall id' | id' in s'.calls ensures CallOk(s', id') {
      assert CallOk(s, id');
    }
  }

  lemma SendNotifyKeeps(s: State, s': State, id: nat, w: Option<Thread>)
    requires Inv(s) && id in s.calls && !s.calls[id].destroy && SendStep(s, s', id, w) && s.calls[id].pc == Notify
    ensures Inv(s')
  {
    assert CallOk(s, id);
    NotifiesWorker(s, id, w);
    forall id' | id' in s'.calls ensures CallOk(s', id') {
      assert CallOk(s, id');
    }
  }

  lemma SendWaitKeeps(s: State, s': State, id: nat, w: Option<Thread>)
    requires Inv(s) && id in s.calls && !s.calls[id].destroy && SendStep(s, s', id, w)
    requires !BeforeNotify(s.calls[id].pc) && s.calls[id].pc != Notify
    ensures Inv(s')
  {
    assert CallOk(s, id);
    forall id' | id' in s'.calls ensures CallOk(s', id') {
      assert CallOk(s, id');
    }
  }

  lemma DestroyNotifyKeeps(s: State, s': State, id: nat, w: Option<Thread>)
    requires Inv(s) && id in s.calls && s.calls[id].destroy && DestroyStep(s, s', id, w) && s.calls[id].pc == Stored
    ensures Inv(s')
  {
    assert CallOk(s, id);
    NotifiesWorker(s, id, w);
    forall id' | id' in s'.calls ensures CallOk(s', id') {
      assert CallOk(s, id');
    }
  }

  lemma DestroyKeeps(s: State, s': State, id: nat, w: Option<Thread>)
    requires Inv(s) && id in s.calls && s.calls[id].destroy && DestroyStep(s, s', id, w) && s.calls[id].pc != Stored
    ensures Inv(s')
  {
    assert CallOk(s, id);
    forall id' | id' in s'.calls ensures CallOk(s', id') {
      assert CallOk(s, id');
    }
  }

  lemma StepKeeps(s: State, s': State)
    requires Inv(s) && Next(s, s')
    ensures Inv(s')
  {
    if SomeThreadSteps(s, s') {
      var t, w :| ThreadStep(s, s', t, w);
      if t == Worker {
        WorkerKeeps(s, s', w);
      } else if s.calls[t.id].destroy && s.calls[t.id].pc == Stored {
        DestroyNotifyKeeps(s, s', t.id, w);
      } else if s.calls[t.id].destroy {
        DestroyKeeps(s, s', t.id, w);
      } else if s.calls[t.id].pc == Notify {
        SendNotifyKeeps(s, s', t.id, w);
      } else if BeforeNotify(s.calls[t.id].pc) {
        SendStoreKeeps(s, s', t.id, w);
      } else {
        SendWaitKeeps(s, s', t.id, w);
      }
    } else {
      var t :| IsAsleep(s, t) && s' == Wake(s, t);
      WakeKeeps(s, t);
    }
  }

  // ---------- Runs ----------

  ghost predicate IsRun(run: seq<State>) {
    run != [] && Init(run[0]) && forall k: nat {:trigger run[k]} | k + 1 < |run| :: Next(run[k], run[k + 1])
  }

  lemma {:induction false} RunKeeps(run: seq<State>, k: nat)
    requires IsRun(run) && k < |run|
    ensures Inv(run[k])
  {
    if k == 0 {
      InitInv(run[0]);
    } else {
      RunKeeps(run, k - 1);
      assert Next(run[k - 1], run[k - 1 + 1]);
      StepKeeps(run[k - 1], run[k]);
    }
  }

  /** The call has stored its task. */
  predicate Sent(c: Call) {
    !c.destroy && (c.pc == Stored || Awaiting(c.pc) || c.pc == Leaving || c.pc == Done)
  }

  /** In every run: no task runs twice; a call that is about to return has had its task run; a task that
      was stored before Destroy has run by the time Destroy sets its flag; and a task that was stored
      afterwards never runs, so that call never returns. */
  lemma ExactlyOnce(run: seq<State>, k: nat, id: nat)
    requires IsRun(run) && k < |run| && id in run[k].calls && !run[k].calls[id].destroy
    ensures var s := run[k];
            && id in s.runs && s.runs[id] <= 1
            && (s.calls[id].pc == Leaving || s.calls[id].pc == Done ==> s.runs[id] == 1)
            && (s.joined && Sent(s.calls[id]) && id !in s.late ==> s.runs[id] == 1)
            && (id in s.late ==> s.joined && s.runs[id] == 0 && s.calls[id].pc != Leaving && s.calls[id].pc != Done)
  {
    RunKeeps(run, k);
    assert CallOk(run[k], id);
    assert WorkerOk(run[k]);
  }

  /** Before Destroy, there is never a task in the slot while its sender and the worker both sleep, and a
      sender never sleeps after its task was taken out unless the worker is about to notify it. */
  lemma NoLostWakeup(run: seq<State>, k: nat)
    requires IsRun(run) && k < |run| && !run[k].joined
    ensures var s := run[k];
            && (s.task.Some? ==> s.task.value in s.calls && !(s.worker == Sleeping && s.calls[s.task.value].pc == Asleep))
            && (forall id | id in s.calls && s.calls[id].pc == Asleep && s.task != Some(id) :: s.worker == Cleared || s.worker == Notifying)
  {
    RunKeeps(run, k);
    var s := run[k];
    forall id | id in s.calls && s.calls[id].pc == Asleep && s.task != Some(id) ensures s.worker == Cleared || s.worker == Notifying {
      assert CallOk(s, id);
    }
  }

  // ---------- Every call returns ----------

  /** Steps that a sender still takes on its own, without those after being woken again. */
  function CallRank(pc: CallPc): nat {
    match pc
    case Start => 0
    case WantCv => 31
    case HasCv => 30
    case Stored => 5
    case Notify => 4
    case Recheck => 3
    case Check => 2
    case Leaving => 1
    case Asleep => 0
    case Done => 0
  }

  function WorkerRank(pc: WorkerPc): nat {
    match pc
    case Ran => 6
    case Cleared => 5
    case Notifying => 4
    case WantLock => 3
    case Checking => 2
    case Sleeping => 0
    case Exited => 0
  }

  /** Bounds the steps until the call of `id` returns: what both threads still do, the run of the task,
      and the notifications that may wake the other one again. */
  function Remaining(s: State, id: nat): nat
    requires id in s.calls
  {
    var pc := s.calls[id].pc;
    CallRank(pc) + WorkerRank(s.worker)
    + (if s.task.Some? && s.worker != Ran then 14 else 0)
    + (if s.worker == Ran || s.worker == Cleared || s.worker == Notifying then 4 else 0)
    + (if BeforeNotify(pc) || pc == Notify then 4 else 0)
  }

  /** A SendTask call is under way, and Destroy has not been called. */
  ghost predicate Pending(s: State, id: nat) {
    Inv(s) && !s.joined && s.rq == Some(id) && id in s.calls && !s.calls[id].destroy
  }

  lemma WorkerApproaches(s: State, s': State, id: nat, w: Option<Thread>)
    requires Pending(s, id) && WorkerStep(s, s', w)
    ensures Pending(s', id) && Remaining(s', id) < Remaining(s, id)
  {
    WorkerKeeps(s, s', w);
    if s.worker == Notifying {
      NotifiesCaller(s, w);
    }
  }

  lemma CallerApproaches(s: State, s': State, id: nat, w: Option<Thread>)
    requires Pending(s, id) && SendStep(s, s', id, w)
    ensures id in s'.calls && (s'.calls[id].pc == Done || (Pending(s', id) && Remaining(s', id) < Remaining(s, id)))
  {
    assert CallOk(s, id);
    if s.calls[id].pc == Notify {
      NotifiesWorker(s, id, w);
    }
    assert ThreadStep(s, s', Caller(id), w);
    StepKeeps(s, s');
  }

  /** While a call is under way nobody else but the worker can take a step, and every step brings the
      call closer to its end. */
  lemma StepApproaches(s: State, s': State, id: nat, t: Thread, w: Option<Thread>)
    requires Pending(s, id) && ThreadStep(s, s', t, w)
    ensures id in s'.calls && (s'.calls[id].pc == Done || (Pending(s', id) && Remaining(s', id) < Remaining(s, id)))
  {
    if t == Worker {
      WorkerApproaches(s, s', id, w);
    } else {
      assert CallOk(s, t.id);
      CallerApproaches(s, s', id, w);
    }
  }

  /** A spurious wakeup sets a call back by three steps at most. */
  lemma SpuriousWakeup(s: State, id: nat, t: Thread)
    requires Pending(s, id) && IsAsleep(s, t)
    ensures Pending(Wake(s, t), id) && Remaining(Wake(s, t), id) <= Remaining(s, id) + 3
  {
    WakeKeeps(s, t);
    Sleepers(s, t);
  }

  /** A notification that may be sent. */
  lemma SomeWake(s: State) returns (w: Option<Thread>)
    ensures MayWake(s, w)
  {
    if exists t :: IsAsleep(s, t) {
      var t :| IsAsleep(s, t);
      w := Some(t);
    } else {
      w := None;
    }
  }

  lemma CallerCanStep(s: State, id: nat) returns (s': State, w: Option<Thread>)
    requires Pending(s, id) && s.calls[id].pc != Asleep && (s.cv.None? || s.cv == Some(Caller(id)))
    ensures SendStep(s, s', id, w)
  {
    assert CallOk(s, id);
    w := SomeWake(s);
    match s.calls[id].pc
    case WantCv => s' := SetPc(s, id, HasCv).(cv := Some(Caller(id)));
    case HasCv => s' := SetPc(s, id, Stored).(task := Some(id), late := if s.joined then s.late + {id} else s.late);
    case Stored => s' := SetPc(s, id, Notify).(cv := None);
    case Notify => s' := SetPc(NotifyOne(s, w), id, Recheck);
    case Recheck => s' := SetPc(s, id, Check).(cv := Some(Caller(id)));
    case Check => s' := if s.task.None? then SetPc(s, id, Leaving).(cv := None) else SetPc(s, id, Asleep).(cv := None);
    case Leaving => s' := SetPc(s, id, Done).(rq := None);
  }

  lemma WorkerCanStep(s: State) returns (s': State, w: Option<Thread>)
    requires Inv(s) && !s.joined && s.worker != Sleeping && (s.cv.None? || s.cv == Some(Worker))
    ensures WorkerStep(s, s', w)
  {
    w := SomeWake(s);
    match s.worker
    case WantLock => s' := s.(worker := Checking, cv := Some(Worker));
    case Checking =>
      s' := if s.task.Some? then s.(worker := Ran, runs := s.runs[s.task.value := s.runs[s.task.value] + 1])
            else s.(worker := Sleeping, cv := None);
    case Ran => s' := s.(worker := Cleared, task := None);
    case Cleared => s' := s.(worker := Notifying, cv := None);
    case Notifying => s' := NotifyOne(s, w).(worker := WantLock);
  }

  /** While a call is under way, some thread can take a step; it does not depend on a spurious wakeup. */
  lemma NoDeadlock(s: State, id: nat) returns (s': State, t: Thread, w: Option<Thread>)
    requires Pending(s, id)
    ensures ThreadStep(s, s', t, w)
  {
    assert CallOk(s, id);
    if s.cv == Some(Worker) || (s.cv.None? && s.calls[id].pc == Asleep) {
      t := Worker;
      s', w := WorkerCanStep(s);
    } else {
      if s.cv.Some? {
        assert CallOk(s, s.cv.value.id);
      }
      t := Caller(id);
      s', w := CallerCanStep(s, id);
    }
  }

  ghost predicate Stepping(states: seq<State>) {
    forall k: nat {:trigger states[k]} | k + 1 < |states| :: SomeThreadSteps(states[k], states[k + 1])
  }

  /** Without spurious wakeups, whatever the schedule is, a call returns within that many steps. */
  lemma {:induction false} CallReturns(states: seq<State>, id: nat) returns (k: nat)
    requires states != [] && Pending(states[0], id) && Stepping(states) && |states| > Remaining(states[0], id) + 1
    ensures k < |states| && id in states[k].calls && states[k].calls[id].pc == Done
    decreases |states|
  {
    var s, s' := states[0], states[0 + 1];
    assert SomeThreadSteps(s, s');
    var t, w :| ThreadStep(s, s', t, w);
    StepApproaches(s, s', id, t, w);
    if s'.calls[id].pc == Done {
      k := 1;
    } else {
      var rest := states[1..];
      forall j: nat | j + 1 < |rest| ensures SomeThreadSteps(rest[j], rest[j + 1]) {
        assert rest[j] == states[j + 1] && rest[j + 1] == states[j + 1 + 1];
      }
      k := CallReturns(rest, id);
      k := k + 1;
    }
  }
}
