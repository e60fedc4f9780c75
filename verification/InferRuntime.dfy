// The scheduler's job table and the calls on it, as the code updates them in place.
//
// Each method is one critical section (with the token it gives afterwards), proved to be
// the events of module InferScheduler it names. The positions of the threads are ghost.
module InferRuntime {
  import opened Errno
  import opened InferScheduler

  function FindFrom(jobs: seq<Job>, id: nat, from: nat): Option<nat>
    requires from <= |jobs|
    decreases |jobs| - from
  {
    if from == |jobs| then None
    else if jobs[from].state != Free && jobs[from].id == id then Some(from)
    else FindFrom(jobs, id, from + 1)
  }

  // While job numbers are distinct, the search finds the job if and only if it is live.
  lemma {:induction false} FindsTheJob(jobs: seq<Job>, id: nat, from: nat, j: nat)
    requires from <= j < |jobs| && jobs[j].state != Free && jobs[j].id == id
    requires forall i, k :: 0 <= i < k < |jobs| && jobs[i].state != Free && jobs[k].state != Free ==>
               jobs[i].id != jobs[k].id
    ensures FindFrom(jobs, id, from) == Some(j)
    decreases |jobs| - from
  {
    if from < j {
      FindsTheJob(jobs, id, from + 1, j);
    }
  }

  lemma {:induction false} FoundIsLive(jobs: seq<Job>, id: nat, from: nat)
    requires from <= |jobs|
    ensures match FindFrom(jobs, id, from)
            case Some(j) => from <= j < |jobs| && jobs[j].state != Free && jobs[j].id == id
            case None => forall j :: from <= j < |jobs| ==> jobs[j].state == Free || jobs[j].id != id
    decreases |jobs| - from
  {
    if from < |jobs| && !(jobs[from].state != Free && jobs[from].id == id) {
      FoundIsLive(jobs, id, from + 1);
    }
  }

  // Replaying every deferred wakeup.
  function Replayed(st: State): State
    requires st.changer.Replaying?
    decreases st.changer.n
  {
    if st.changer.n == 0 then st.(changer := Out)
    else Replayed(st.(changer := Replaying(st.changer.n - 1), wake := Give(st.wake, |st.jobs|)))
  }

  lemma {:induction false} ReplayedIsRun(st: State) returns (run: seq<Event>)
    requires Shaped(st) && st.changer.Replaying?
    ensures Possible(st, run) && Run(st, run) == Replayed(st)
    decreases st.changer.n
  {
    var next := Next(st, Replay);
    if st.changer.n == 0 {
      run := [Replay];
      assert Possible(next, []) && Run(next, []) == next;
    } else {
      var rest := ReplayedIsRun(next);
      run := [Replay] + rest;
    }
    hide Next;
    assert run[0] == Replay && Possible(next, run[1..]);
  }

  class Infer {
    const jobs: array<Job>
    var nextJobId: nat
    var nextSeq: nat
    var maxConcurrent: nat
    var dispatchPaused: bool
    var jobRunning: bool
    var deferredWakes: nat
    var wakeSem: nat
    var drainSem: nat
    var ctxSlots: seq<Option<nat>>
    var stats: Stats
    ghost var pc: Pc
    ghost var changer: Changer
    ghost var owed: nat

    ghost function Now(): State
      reads this, jobs
    {
      State(jobs[..], pc, wakeSem, deferredWakes, owed, dispatchPaused, jobRunning, drainSem, changer,
            ctxSlots, stats, nextJobId, nextSeq)
    }

    ghost predicate Valid()
      reads this, jobs
    {
      Shaped(Now())
    }

    constructor (capacity: nat)
      ensures Valid() && fresh(jobs) && Now() == Initial(capacity) && maxConcurrent == capacity
    {
      jobs := new Job[capacity](_ => NO_JOB);
      nextJobId, nextSeq, maxConcurrent := 1, 0, capacity;
      dispatchPaused, jobRunning, deferredWakes, wakeSem, drainSem := false, false, 0, 0, 0;
      ctxSlots := seq(CTX_SLOTS, _ => None);
      stats := Stats(0, 0, 0, 0);
      pc, changer, owed := Blocked, Out, 0;
      new;
      assert jobs[..] == seq(capacity, _ => NO_JOB);
    }

    // ---- searches ----

    method CountActive() returns (active: nat)
      ensures active == ActiveCount(jobs[..])
    {
      active := 0;
      var i := jobs.Length;
      assert jobs[jobs.Length..] == [];
      while i > 0
        invariant 0 <= i <= jobs.Length && active == ActiveCount(jobs[i..])
      {
        i := i - 1;
        assert jobs[i..][1..] == jobs[i + 1..];
        if Active(jobs[i]) {
          active := active + 1;
        }
      }
      assert jobs[0..] == jobs[..];
    }

    method FindFree() returns (i: Option<nat>)
      ensures i == FirstFree(jobs[..], 0)
    {
      for k := 0 to jobs.Length
        invariant FirstFree(jobs[..], 0) == FirstFree(jobs[..], k)
      {
        if jobs[k].state == Free {
          return Some(k);
        }
      }
      return None;
    }

    method FindJob(id: nat) returns (j: Option<nat>)
      ensures j == FindFrom(jobs[..], id, 0)
    {
      for k := 0 to jobs.Length
        invariant FindFrom(jobs[..], id, 0) == FindFrom(jobs[..], id, k)
      {
        if jobs[k].state != Free && jobs[k].id == id {
          return Some(k);
        }
      }
      return None;
    }

    // Pick the best runnable job: queued or suspended.
    method PickNextJob() returns (best: Option<nat>)
      ensures best == Pick(jobs[..], jobs.Length)
      ensures best.Some? ==> best.value < jobs.Length && Foremost(jobs[..], best.value)
      ensures best.None? ==> forall i :: 0 <= i < jobs.Length ==> !Runnable(jobs[i])
    {
      best := None;
      for i := 0 to jobs.Length
        invariant best == Pick(jobs[..], i) && (best.Some? ==> best.value < i)
      {
        if Runnable(jobs[i]) {
          if best.None? || Before(jobs[i], jobs[best.value]) {
            best := Some(i);
          }
        }
      }
      PickIsForemost(jobs[..], jobs.Length);
      assert jobs[..][..jobs.Length] == jobs[..];
      hide Pick, Before, Foremost;
    }

    // True when a queued job outranks the running one.
    method IsPreemptPending(cur: Job) returns (found: bool)
      ensures found == PreemptPending(jobs[..], cur)
      ensures found <==> exists i :: 0 <= i < jobs.Length && jobs[i].state == Queued && jobs[i].priority > cur.priority
    {
      for i := 0 to jobs.Length
        invariant forall k :: 0 <= k < i ==> !(jobs[k].state == Queued && jobs[k].priority > cur.priority)
      {
        if jobs[i].state == Queued && jobs[i].priority > cur.priority {
          assert jobs[..][i].state == Queued;
          return true;
        }
      }
      return false;
    }

    method Set(j: nat, job: Job)
      requires j < jobs.Length
      modifies jobs
      ensures jobs[..] == old(jobs[..])[j := job]
    {
      jobs[j] := job;
    }

    // ---- submitters, cancellers and owners ----

    // accepted says that the pipeline is valid and built and the input present.
    method Submit(accepted: bool, pipe: nat, priority: int, deadline: int, preemptible: bool) returns (id: Option<nat>)
      requires Valid()
      modifies this, jobs
      ensures Valid()
      ensures id.Some? <==>
        accepted && old(ActiveCount(jobs[..])) < old(maxConcurrent) && old(FirstFree(jobs[..], 0)).Some?
      ensures id.None? ==> unchanged(this) && unchanged(jobs)
      ensures var e := Event.Submit(pipe, priority, deadline, preemptible);
              id.Some? ==> Enabled(old(Now()), e) && Now() == Submitted(old(Now()), e) && id.value == old(nextJobId)
    {
      if !accepted {
        return None;
      }
      var active := CountActive();
      if active >= maxConcurrent {
        return None;
      }
      var free := FindFree();
      FirstFreeIsFree(jobs[..], 0);
      if free.None? {
        return None;
      }
      id := Some(nextJobId);
      hide ActiveCount;
      Enqueue(free.value, pipe, priority, deadline, preemptible);
    }

    // Fill the free entry, and give the wake token after dropping the lock.
    method Enqueue(i: nat, pipe: nat, priority: int, deadline: int, preemptible: bool)
      requires Valid() && FirstFree(jobs[..], 0) == Some(i) && i < jobs.Length
      modifies `nextJobId, `nextSeq, `stats, `wakeSem, jobs
      ensures Valid()
      ensures var e := Event.Submit(pipe, priority, deadline, preemptible);
              Enabled(old(Now()), e) && Now() == Submitted(old(Now()), e)
    {
      hide FirstFree;
      Set(i, Job(nextJobId, Queued, pipe, priority, deadline, nextSeq, preemptible, None, false));
      nextJobId := nextJobId + 1;
      nextSeq := nextSeq + 1;
      stats := stats.(accepted := stats.accepted + 1);
      wakeSem := if wakeSem < jobs.Length then wakeSem + 1 else wakeSem;
    }

    method Cancel(id: nat) returns (err: Option<Errno>)
      requires Valid()
      modifies `stats, `ctxSlots, jobs
      ensures Valid()
      ensures var j := FindFrom(old(jobs[..]), id, 0);
              match j
              case None => err == Some(ENOENT) && unchanged(this) && unchanged(jobs)
              case Some(j) =>
                j < |old(jobs[..])| &&
                if Runnable(old(jobs[..])[j]) then err.None? && Now() == Cancelled1(old(Now()), j)
                else err == Some(if old(jobs[..])[j].state == Running then EBUSY else EALREADY) &&
                     unchanged(this) && unchanged(jobs)
    {
      var found := FindJob(id);
      FoundIsLive(jobs[..], id, 0);
      if found.None? {
        return Some(ENOENT);
      }
      var j := found.value;
      match jobs[j].state {
        case Queued =>
          CancelWaiting(j);
          err := None;
        case Suspended =>
          CancelWaiting(j);
          err := None;
        case Running =>
          err := Some(EBUSY);
        case _ =>
          err := Some(EALREADY);
      }
    }

    method CancelWaiting(j: nat)
      requires Valid() && j < jobs.Length && Runnable(jobs[j])
      modifies `stats, `ctxSlots, jobs
      ensures Valid() && Now() == Cancelled1(old(Now()), j)
    {
      var job := jobs[j];
      if job.state == Suspended {
        SlotFree(job.ctx);
        job := job.(ctx := None);
      }
      Set(j, job.(state := Cancelled));
      stats := stats.(cancelled := stats.cancelled + 1);
    }

    // The NPU drops the context in the slot.
    method SlotFree(ctx: Option<nat>)
      modifies `ctxSlots
      ensures ctxSlots == SlotFreed(old(ctxSlots), ctx)
    {
      if ctx.Some? && ctx.value < |ctxSlots| {
        ctxSlots := ctxSlots[ctx.value := None];
      }
    }

    // The state whose result was handed out, and which freed the table entry.
    method GetResult(id: nat) returns (r: Result<JobState>)
      requires Valid()
      modifies jobs
      ensures Valid()
      ensures match FindFrom(old(jobs[..]), id, 0)
              case None => r == Err(ENOENT) && unchanged(jobs)
              case Some(j) =>
                j < |old(jobs[..])| && var s := old(jobs[..])[j].state;
                if s in {Done, Error, JobState.Cancelled}
                then r == Ok(s) && Enabled(old(Now()), Consume(j)) && Now() == Next(old(Now()), Consume(j))
                else r == Err(EBUSY) && unchanged(jobs)
    {
      var found := FindJob(id);
      FoundIsLive(jobs[..], id, 0);
      if found.None? {
        return Err(ENOENT);
      }
      var j := found.value;
      var job := jobs[j];
      if job.state == Done || job.state == Error || job.state == JobState.Cancelled {
        Set(j, job.(state := Free));
        return Ok(job.state);
      }
      return Err(EBUSY);
    }

    // Cancel jobs still referencing the pipeline.
    method Destroy(pipe: nat)
      requires Valid()
      modifies `stats, `ctxSlots, jobs
      ensures Valid() && Now() == Next(old(Now()), Event.Destroy(pipe))
    {
      ghost var st := Now();
      for i := 0 to jobs.Length
        invariant Valid() && Now() == DestroyFirst(st, pipe, i)
      {
        var waiting := jobs[i].state == Queued;
        if jobs[i].state == Suspended {
          waiting := true;
        }
        if waiting && jobs[i].pipe == pipe {
          CancelWaiting(i);
        } else if jobs[i].state == Suspended {
          SlotFree(jobs[i].ctx);
          Set(i, jobs[i].(ctx := None));
        }
      }
    }

    // ---- the scheduler thread ----

    // k_sem_take(&sched_wake)
    method TakeWake()
      requires Valid() && Enabled(Now(), Take)
      modifies `wakeSem, `pc
      ensures Valid() && Now() == Next(old(Now()), Take)
    {
      wakeSem := wakeSem - 1;
      pc := Woken;
    }

    // What the scheduler does under the lock with a token in hand.
    method Wake() returns (j: Option<nat>)
      requires Valid() && pc == Woken
      modifies `deferredWakes, `jobRunning, `pc, jobs
      ensures Valid()
      ensures Now() == if old(dispatchPaused) then Next(old(Now()), Defer) else Next(old(Now()), Dispatch)
      ensures j.Some? <==> !old(dispatchPaused) && Pick(old(jobs[..]), jobs.Length).Some?
      ensures j.Some? ==> pc == Starting(j.value) && Foremost(old(jobs[..]), j.value)
      ensures j.None? && !old(dispatchPaused) ==> forall i :: 0 <= i < jobs.Length ==> !Runnable(old(jobs[..])[i])
    {
      if dispatchPaused {
        // residency change in progress: replay this wakeup on release
        deferredWakes := deferredWakes + 1;
        pc := Blocked;
        return None;
      }
      j := PickNextJob();
      hide Pick, Before, Foremost;
      if j.None? {
        // the job was cancelled between wake and dispatch
        pc := Blocked;
        return None;
      }
      var job := jobs[j.value];
      if job.state == Suspended {
        job := job.(resuming := true);
      }
      Set(j.value, job.(state := Running));
      jobRunning := true;
      pc := Starting(j.value);
    }

    // syn_npu_layered_restore and the clearing of ctx_slot after it; a job whose slot is
    // empty is refused.
    method ResumeContext(j: nat) returns (ok: bool)
      requires Valid() && Enabled(Now(), Restore) && pc.j == j
      modifies `ctxSlots, `pc, jobs
      ensures Valid() && ok == Occupied(old(ctxSlots), old(jobs[j]).ctx)
      ensures ok ==> Enabled(Next(old(Now()), Restore), ClearCtx) &&
                     Now() == Next(Next(old(Now()), Restore), ClearCtx)
      ensures !ok ==> Now() == Next(old(Now()), Restore) && pc == Refused(j)
    {
      var job := jobs[j];
      ok := job.ctx.Some? && job.ctx.value < |ctxSlots| && ctxSlots[job.ctx.value].Some?;
      if ok {
        SlotFree(job.ctx);
        Set(j, job.(resuming := false, ctx := None));
        pc := Working(j);
      } else {
        Set(j, job.(resuming := false));
        pc := Refused(j);
      }
    }

    // syn_npu_layered_save: the first free suspension slot, if there is one.
    method SaveContext(j: nat) returns (slot: Option<nat>)
      requires Valid() && Enabled(Now(), Park) && pc.j == j
      modifies `ctxSlots, `pc
      ensures Valid() && Now() == Next(old(Now()), Park)
      ensures slot.Some? ==> pc == Parked(j, slot.value)
      ensures slot.None? ==> pc == Working(j) && ctxSlots == old(ctxSlots)
    {
      FirstSlotIsFree(ctxSlots, 0);
      for k := 0 to |ctxSlots|
        invariant FirstSlot(ctxSlots, 0) == FirstSlot(ctxSlots, k) && unchanged(this)
      {
        if ctxSlots[k].None? {
          ctxSlots := ctxSlots[k := Some(j)];
          pc := Parked(j, k);
          return Some(k);
        }
      }
      // no free slot: keep running
      pc := Working(j);
      return None;
    }

    method RecordContext(j: nat, slot: nat)
      requires Valid() && pc == Parked(j, slot)
      modifies `pc, jobs
      ensures Valid() && Now() == Next(old(Now()), Record)
    {
      Set(j, jobs[j].(ctx := Some(slot)));
      pc := Preempted(j);
    }

    // The preempted job is suspended; one extra wakeup pays for its resumption.
    method SuspendJob(j: nat)
      requires Valid() && pc == Preempted(j)
      modifies `jobRunning, `drainSem, `wakeSem, `pc, jobs
      ensures Valid() && Now() == Given(Next(old(Now()), Event.Suspend))
    {
      hide Given;
      var drain := SuspendLocked(j);
      hide Next, Enabled;
      GiveTokens(drain, true);
    }

    method SuspendLocked(j: nat) returns (drain: bool)
      requires Valid() && pc == Preempted(j)
      modifies `jobRunning, `pc, jobs
      ensures Valid() && Now() == Next(old(Now()), Event.Suspend) && pc == Giving(drain, true)
    {
      Set(j, jobs[j].(state := Suspended));
      jobRunning := false;
      drain := dispatchPaused;
      pc := Giving(drain, true);
    }

    // The job's result is recorded, also when it failed before its pipeline ran; a waiting
    // quiesce gets its token.
    method CompleteJob(j: nat, ok: bool)
      requires Valid() && Finishing(Now(), ok) && pc.j == j
      modifies `jobRunning, `drainSem, `wakeSem, `stats, `pc, jobs
      ensures Valid() && Now() == Given(DoFinish(old(Now()), ok))
    {
      hide Given;
      var drain := CompleteLocked(j, ok);
      hide Next, Enabled;
      GiveTokens(drain, false);
    }

    method CompleteLocked(j: nat, ok: bool) returns (drain: bool)
      requires Valid() && Finishing(Now(), ok) && pc.j == j
      modifies `jobRunning, `stats, `pc, jobs
      ensures Valid() && Now() == DoFinish(old(Now()), ok) && pc == Giving(drain, false)
    {
      Set(j, jobs[j].(state := if ok then Done else Error));
      jobRunning := false;
      stats := if ok then stats.(completed := stats.completed + 1) else stats.(errors := stats.errors + 1);
      drain := dispatchPaused;
      pc := Giving(drain, false);
    }

    // What is owed once the lock is dropped.
    method GiveTokens(drain: bool, wake: bool)
      requires Valid() && pc == Giving(drain, wake)
      modifies `drainSem, `wakeSem, `pc
      ensures Valid() && Now() == Given(old(Now()))
    {
      if drain {
        drainSem := 1;
      }
      if wake {
        wakeSem := if wakeSem < jobs.Length then wakeSem + 1 else wakeSem;
      }
      pc := Blocked;
    }

    // ---- the gate ----

    // Pause dispatch; the caller waits for a drain token when a job is running.
    method Quiesce() returns (busy: bool)
      requires Valid() && changer == Out
      modifies `dispatchPaused, `drainSem, `changer
      ensures Valid() && Now() == Next(old(Now()), Event.Quiesce)
      ensures busy <==> changer == Draining
    {
      dispatchPaused := true;
      drainSem := 0;
      busy := jobRunning;
      changer := if busy then Draining else Inside;
    }

    // k_sem_give(&sched_wake), n times to go.
    method GiveWake(n: nat)
      requires Valid() && changer == Replaying(n) && n > 0
      modifies `wakeSem, `changer
      ensures Valid() && changer == Replaying(n - 1) && Replayed(Now()) == old(Replayed(Now()))
    {
      wakeSem := if wakeSem < jobs.Length then wakeSem + 1 else wakeSem;
      changer := Replaying(n - 1);
    }

    // Resume dispatch and replay the wakeups that were deferred.
    method Release()
      requires Valid() && changer == Inside
      modifies `dispatchPaused, `deferredWakes, `wakeSem, `changer
      ensures Valid() && Now() == Replayed(Next(old(Now()), Event.Release))
    {
      ghost var st := Next(Now(), Event.Release);
      dispatchPaused := false;
      var replay := deferredWakes;
      deferredWakes := 0;
      changer := Replaying(replay);
      while replay > 0
        invariant Valid() && changer == Replaying(replay) && Replayed(Now()) == Replayed(st)
        decreases replay
      {
        GiveWake(replay);
        replay := replay - 1;
      }
      changer := Out;
    }
  }

  // The scheduler gives the tokens it owes after dropping the lock.
  function Given(st: State): State
    requires Shaped(st) && st.pc.Giving?
  {
    Next(if st.pc.drain then Next(st, GiveDrain) else st, GiveWake)
  }

  // A submission is the locked section and then the wake token.
  function Submitted(st: State, e: Event): State
    requires Enabled(st, e) && e.Submit?
  {
    FirstFreeIsFree(st.jobs, 0);
    Next(Next(st, e), SubmitGive)
  }
}
