// The inference scheduler at the granularity of its lock and semaphores.
//
// Submitters, cancellers, pipeline owners, residency changers and the scheduler thread
// interleave in any order; each event below is one critical section, one semaphore
// operation or one step of the scheduler outside the lock.
module InferScheduler {
  import opened Errno

  datatype JobState = Free | Queued | Running | Suspended | Done | Error | Cancelled

  // ctx is the suspension slot that holds the job's parked context.
  datatype Job = Job(
    id: nat, state: JobState, pipe: nat, priority: int, deadline: int, seqno: nat,
    preemptible: bool, ctx: Option<nat>, resuming: bool)

  // Where the scheduler thread is.
  datatype Pc =
    | Blocked                            // waiting for a wake token
    | Woken                              // took one
    | Starting(j: nat)                   // marked the job running
    | Restored(j: nat)                   // freed the job's slot, ctx not yet cleared
    | Refused(j: nat)                    // the job's slot was empty
    | Working(j: nat)                    // inside the pipeline
    | Yielding(j: nat)                   // saw a queued job that outranks this one
    | Parked(j: nat, slot: nat)          // context saved, ctx not yet recorded
    | Preempted(j: nat)                  // left the pipeline, not yet suspended
    | Giving(drain: bool, wake: bool)    // dropped the lock, owes these tokens

  // Where the holder of the residency gate is.
  datatype Changer = Out | Draining | Inside | Replaying(n: nat)

  datatype Stats = Stats(accepted: nat, completed: nat, errors: nat, cancelled: nat)

  // slots[k] is the job whose context the NPU keeps in suspension slot k; owed counts
  // submitters between unlocking and giving their wake token.
  datatype State = State(
    jobs: seq<Job>, pc: Pc, wake: nat, deferred: nat, owed: nat,
    paused: bool, running: bool, drain: nat, changer: Changer,
    slots: seq<Option<nat>>, stats: Stats, nextId: nat, nextSeq: nat)

  datatype Event =
    | Submit(pipe: nat, priority: int, deadline: int, preemptible: bool)
    | SubmitGive
    | Cancel(j: nat)
    | Consume(j: nat)
    | Destroy(pipe: nat)
    | Take
    | Defer
    | Dispatch
    | FailEarly
    | Begin
    | Restore
    | ClearCtx
    | SeePreemptor
    | Park
    | Record
    | Suspend
    | Finish(ok: bool)
    | GiveDrain
    | GiveWake
    | Quiesce
    | DrainTaken
    | Release
    | Replay

  // ---- counting jobs ----

  function Total(jobs: seq<Job>, weight: Job -> nat): nat {
    if jobs == [] then 0 else weight(jobs[0]) + Total(jobs[1..], weight)
  }

  lemma {:induction false} TotalUpdate(jobs: seq<Job>, weight: Job -> nat, i: nat, job: Job)
    requires i < |jobs|
    ensures Total(jobs[i := job], weight) + weight(jobs[i]) == Total(jobs, weight) + weight(job)
  {
    if i == 0 {
      assert jobs[i := job][1..] == jobs[1..];
    } else {
      TotalUpdate(jobs[1..], weight, i - 1, job);
      assert jobs[i := job][1..] == jobs[1..][i - 1 := job];
    }
  }

  lemma {:induction false} TotalAtMost(jobs: seq<Job>, weight: Job -> nat)
    requires forall job :: weight(job) <= 1
    ensures Total(jobs, weight) <= |jobs|
  {
    if jobs != [] {
      TotalAtMost(jobs[1..], weight);
    }
  }

  lemma {:induction false} TotalZero(jobs: seq<Job>, weight: Job -> nat)
    ensures Total(jobs, weight) == 0 <==> forall i :: 0 <= i < |jobs| ==> weight(jobs[i]) == 0
  {
    if jobs != [] {
      TotalZero(jobs[1..], weight);
      assert forall i :: 0 <= i < |jobs| - 1 ==> jobs[1..][i] == jobs[i + 1];
      assert forall i :: 1 <= i < |jobs| ==> jobs[i] == jobs[1..][i - 1];
    }
  }

  predicate Runnable(job: Job) {
    job.state == Queued || job.state == Suspended
  }

  predicate Active(job: Job) {
    Runnable(job) || job.state == Running
  }

  function B2N(b: bool): nat {
    if b then 1 else 0
  }

  function RunnableWeight(): Job -> nat {
    job => if Runnable(job) then 1 else 0
  }

  function ActiveWeight(): Job -> nat {
    job => if Active(job) then 1 else 0
  }

  function RunnableCount(jobs: seq<Job>): nat {
    Total(jobs, RunnableWeight())
  }

  function ActiveCount(jobs: seq<Job>): nat {
    Total(jobs, ActiveWeight())
  }

  lemma CountsUpdate(jobs: seq<Job>, i: nat, job: Job)
    requires i < |jobs|
    ensures RunnableCount(jobs[i := job]) + B2N(Runnable(jobs[i])) == RunnableCount(jobs) + B2N(Runnable(job))
    ensures ActiveCount(jobs[i := job]) + B2N(Active(jobs[i])) == ActiveCount(jobs) + B2N(Active(job))
  {
    TotalUpdate(jobs, RunnableWeight(), i, job);
    TotalUpdate(jobs, ActiveWeight(), i, job);
  }

  // ---- dispatch order ----

  predicate Before(a: Job, b: Job) {
    if a.priority != b.priority then a.priority > b.priority
    else if a.deadline != b.deadline then a.deadline < b.deadline
    else a.seqno < b.seqno
  }

  lemma BeforeIsStrictOrder(a: Job, b: Job, c: Job)
    ensures !Before(a, a)
    ensures Before(a, b) && Before(b, c) ==> Before(a, c)
    ensures a.seqno != b.seqno ==> (Before(a, b) <==> !Before(b, a))
    // The higher priority first, then the earlier deadline, then the earlier submission.
    ensures a.priority > b.priority ==> Before(a, b)
    ensures a.priority == b.priority && a.deadline < b.deadline ==> Before(a, b)
    ensures a.priority == b.priority && a.deadline == b.deadline && a.seqno < b.seqno ==> Before(a, b)
  {
  }

  // No runnable job has a higher priority than b, nor the same and an earlier deadline,
  // nor both the same and an earlier submission.
  ghost predicate Foremost(jobs: seq<Job>, b: nat) {
    && b < |jobs| && Runnable(jobs[b])
    && forall i :: 0 <= i < |jobs| && Runnable(jobs[i]) ==>
         && jobs[i].priority <= jobs[b].priority
         && (jobs[i].priority == jobs[b].priority ==>
               && jobs[b].deadline <= jobs[i].deadline
               && (jobs[b].deadline == jobs[i].deadline ==> jobs[b].seqno <= jobs[i].seqno))
  }

  // The pick of the first n jobs, as the loop makes it.
  function Pick(jobs: seq<Job>, n: nat): Option<nat>
    requires n <= |jobs|
  {
    if n == 0 then None
    else
      var best := Pick(jobs, n - 1);
      if !Runnable(jobs[n - 1]) then best
      else if best.None? || (best.value < |jobs| && Before(jobs[n - 1], jobs[best.value])) then Some(n - 1)
      else best
  }

  ghost predicate DistinctSeqs(jobs: seq<Job>) {
    forall i, k :: 0 <= i < k < |jobs| && Active(jobs[i]) && Active(jobs[k]) ==> jobs[i].seqno != jobs[k].seqno
  }

  // The pick is the one runnable job that comes before every other; none is picked only
  // when none is runnable.
  lemma {:induction false} PickIsBest(jobs: seq<Job>, n: nat)
    requires n <= |jobs| && DistinctSeqs(jobs)
    ensures match Pick(jobs, n)
            case None => forall i :: 0 <= i < n ==> !Runnable(jobs[i])
            case Some(b) =>
              && b < n && Runnable(jobs[b])
              && forall i :: 0 <= i < n && i != b && Runnable(jobs[i]) ==> Before(jobs[b], jobs[i])
  {
    if n > 0 {
      PickIsBest(jobs, n - 1);
    }
  }

  // In the fields of the jobs, and whether or not their numbers are distinct.
  lemma {:induction false} PickIsForemost(jobs: seq<Job>, n: nat)
    requires n <= |jobs|
    ensures match Pick(jobs, n)
            case None => forall i :: 0 <= i < n ==> !Runnable(jobs[i])
            case Some(b) => b < n && Foremost(jobs[..n], b)
  {
    if n > 0 {
      PickIsForemost(jobs, n - 1);
      assert forall i :: 0 <= i < n - 1 ==> jobs[..n][i] == jobs[..n - 1][i];
    }
  }

  // ---- the events ----

  const CTX_SLOTS := 2

  // The wake semaphore is capped at the size of the job table; further gives are lost.
  function Give(wake: nat, cap: nat): nat {
    if wake < cap then wake + 1 else wake
  }

  function FirstFree(jobs: seq<Job>, from: nat): Option<nat>
    requires from <= |jobs|
    decreases |jobs| - from
  {
    if from == |jobs| then None
    else if jobs[from].state == Free then Some(from)
    else FirstFree(jobs, from + 1)
  }

  lemma {:induction false} FirstFreeIsFree(jobs: seq<Job>, from: nat)
    requires from <= |jobs|
    ensures match FirstFree(jobs, from)
            case Some(i) => from <= i < |jobs| && jobs[i].state == Free
            case None => forall i :: from <= i < |jobs| ==> jobs[i].state != Free
    decreases |jobs| - from
  {
    if from < |jobs| && jobs[from].state != Free {
      FirstFreeIsFree(jobs, from + 1);
    }
  }

  function FirstSlot(slots: seq<Option<nat>>, from: nat): Option<nat>
    requires from <= |slots|
    decreases |slots| - from
  {
    if from == |slots| then None
    else if slots[from].None? then Some(from)
    else FirstSlot(slots, from + 1)
  }

  lemma {:induction false} FirstSlotIsFree(slots: seq<Option<nat>>, from: nat)
    requires from <= |slots|
    ensures match FirstSlot(slots, from)
            case Some(i) => from <= i < |slots| && slots[i].None?
            case None => forall i :: from <= i < |slots| ==> slots[i].Some?
    decreases |slots| - from
  {
    if from < |slots| && slots[from].Some? {
      FirstSlotIsFree(slots, from + 1);
    }
  }

  predicate PreemptPending(jobs: seq<Job>, cur: Job) {
    exists i :: 0 <= i < |jobs| && jobs[i].state == Queued && jobs[i].priority > cur.priority
  }

  function NewJob(st: State, pipe: nat, priority: int, deadline: int, preemptible: bool): Job {
    Job(st.nextId, Queued, pipe, priority, deadline, st.nextSeq, preemptible, None, false)
  }

  function SlotFreed(slots: seq<Option<nat>>, ctx: Option<nat>): seq<Option<nat>> {
    if ctx.Some? && ctx.value < |slots| then slots[ctx.value := None] else slots
  }

  // A waiting job is cancelled; a suspended one gives its slot back.
  function Cancelled1(st: State, j: nat): State
    requires j < |st.jobs|
  {
    var job := st.jobs[j];
    st.(jobs := st.jobs[j := job.(state := Cancelled, ctx := if job.state == Suspended then None else job.ctx)],
        slots := if job.state == Suspended then SlotFreed(st.slots, job.ctx) else st.slots,
        stats := st.stats.(cancelled := st.stats.cancelled + 1))
  }

  // One round of the destroy loop: every suspended job loses its slot, whichever
  // pipeline it belongs to.
  function DestroyOne(st: State, pipe: nat, j: nat): State
    requires j < |st.jobs|
  {
    var job := st.jobs[j];
    if Runnable(job) && job.pipe == pipe then Cancelled1(st, j)
    else if job.state == Suspended then
      st.(jobs := st.jobs[j := job.(ctx := None)], slots := SlotFreed(st.slots, job.ctx))
    else st
  }

  function DestroyFirst(st: State, pipe: nat, n: nat): (r: State)
    requires n <= |st.jobs|
    ensures |r.jobs| == |st.jobs|
  {
    if n == 0 then st else DestroyOne(DestroyFirst(st, pipe, n - 1), pipe, n - 1)
  }

  predicate HasJob(pc: Pc) {
    pc.Starting? || pc.Restored? || pc.Refused? || pc.Working? || pc.Yielding? || pc.Parked? || pc.Preempted?
  }

  predicate Shaped(st: State) {
    |st.slots| == CTX_SLOTS && (HasJob(st.pc) ==> st.pc.j < |st.jobs|)
  }

  predicate Enabled(st: State, e: Event) {
    && Shaped(st)
    && match e
       case Submit(_, _, _, _) => FirstFree(st.jobs, 0).Some?
       case SubmitGive => st.owed > 0
       case Cancel(j) => j < |st.jobs| && Runnable(st.jobs[j])
       case Consume(j) => j < |st.jobs| && st.jobs[j].state in {Done, Error, Cancelled}
       case Destroy(_) => true
       case Take => st.pc == Blocked && st.wake > 0
       case Defer => st.pc == Woken && st.paused
       case Dispatch => st.pc == Woken && !st.paused
       case FailEarly => st.pc.Starting?
       case Begin => st.pc.Starting? && !st.jobs[st.pc.j].resuming
       case Restore => st.pc.Starting? && st.jobs[st.pc.j].resuming
       case ClearCtx => st.pc.Restored?
       case SeePreemptor => st.pc.Working? && st.jobs[st.pc.j].preemptible && PreemptPending(st.jobs, st.jobs[st.pc.j])
       case Park => st.pc.Yielding?
       case Record => st.pc.Parked?
       case Suspend => st.pc.Preempted?
       case Finish(ok) => st.pc.Working? || (st.pc.Refused? && !ok)
       case GiveDrain => st.pc.Giving? && st.pc.drain
       case GiveWake => st.pc.Giving? && !st.pc.drain
       case Quiesce => st.changer == Out
       case DrainTaken => st.changer == Draining && st.drain > 0
       case Release => st.changer == Inside
       case Replay => st.changer.Replaying?
  }

  function DoSubmit(st: State, pipe: nat, priority: int, deadline: int, preemptible: bool): State
    requires FirstFree(st.jobs, 0).Some?
  {
    FirstFreeIsFree(st.jobs, 0);
    st.(jobs := st.jobs[FirstFree(st.jobs, 0).value := NewJob(st, pipe, priority, deadline, preemptible)],
        owed := st.owed + 1, nextId := st.nextId + 1, nextSeq := st.nextSeq + 1,
        stats := st.stats.(accepted := st.stats.accepted + 1))
  }

  function DoDispatch(st: State): State {
    var best := Pick(st.jobs, |st.jobs|);
    if best.None? || best.value >= |st.jobs| then st.(pc := Blocked) else Started(st, best.value)
  }

  function Started(st: State, j: nat): State
    requires j < |st.jobs|
  {
    var job := st.jobs[j];
    st.(pc := Starting(j), running := true,
        jobs := st.jobs[j := job.(state := Running, resuming := job.resuming || job.state == Suspended)])
  }

  // The job's end, or its failure before the pipeline ran.
  function DoFinish(st: State, ok: bool): State
    requires HasJob(st.pc) && st.pc.j < |st.jobs|
  {
    var j := st.pc.j;
    st.(jobs := st.jobs[j := st.jobs[j].(state := if ok then Done else Error)],
        running := false, pc := Giving(st.paused, false),
        stats := if ok then st.stats.(completed := st.stats.completed + 1)
                 else st.stats.(errors := st.stats.errors + 1))
  }

  predicate Occupied(slots: seq<Option<nat>>, ctx: Option<nat>) {
    ctx.Some? && ctx.value < |slots| && slots[ctx.value].Some?
  }

  // The context is read back and its slot freed; a job that lost its slot is refused.
  function DoRestore(st: State): State
    requires HasJob(st.pc) && st.pc.j < |st.jobs|
  {
    var j := st.pc.j;
    var jobs := st.jobs[j := st.jobs[j].(resuming := false)];
    if Occupied(st.slots, st.jobs[j].ctx)
    then st.(jobs := jobs, slots := SlotFreed(st.slots, st.jobs[j].ctx), pc := Restored(j))
    else st.(jobs := jobs, pc := Refused(j))
  }

  function DoPark(st: State): State
    requires HasJob(st.pc) && st.pc.j < |st.jobs|
  {
    var k := FirstSlot(st.slots, 0);
    if k.None? || k.value >= |st.slots| then st.(pc := Working(st.pc.j))
    else st.(slots := st.slots[k.value := Some(st.pc.j)], pc := Parked(st.pc.j, k.value))
  }

  function SetJob(st: State, j: nat, job: Job, pc: Pc): State
    requires j < |st.jobs|
  {
    st.(jobs := st.jobs[j := job], pc := pc)
  }

  function Next(st: State, e: Event): State
    requires Enabled(st, e)
  {
    match e
    case Submit(p, prio, deadline, pre) => DoSubmit(st, p, prio, deadline, pre)
    case SubmitGive => st.(owed := st.owed - 1, wake := Give(st.wake, |st.jobs|))
    case Cancel(j) => Cancelled1(st, j)
    case Consume(j) => SetJob(st, j, st.jobs[j].(state := Free), st.pc)
    case Destroy(p) => DestroyFirst(st, p, |st.jobs|)
    case Take => st.(pc := Woken, wake := st.wake - 1)
    case Defer => st.(pc := Blocked, deferred := st.deferred + 1)
    case Dispatch => DoDispatch(st)
    case FailEarly => DoFinish(st, false)
    case Begin => st.(pc := Working(st.pc.j))
    case Restore => DoRestore(st)
    case ClearCtx => SetJob(st, st.pc.j, st.jobs[st.pc.j].(ctx := None), Working(st.pc.j))
    case SeePreemptor => st.(pc := Yielding(st.pc.j))
    case Park => DoPark(st)
    case Record => SetJob(st, st.pc.j, st.jobs[st.pc.j].(ctx := Some(st.pc.slot)), Preempted(st.pc.j))
    case Suspend =>
      SetJob(st, st.pc.j, st.jobs[st.pc.j].(state := Suspended), Giving(st.paused, true)).(running := false)
    case Finish(ok) => DoFinish(st, ok)
    case GiveDrain => st.(pc := Giving(false, st.pc.wake), drain := 1)
    case GiveWake => st.(pc := Blocked, wake := if st.pc.wake then Give(st.wake, |st.jobs|) else st.wake)
    case Quiesce => st.(paused := true, drain := 0, changer := if st.running then Draining else Inside)
    case DrainTaken => st.(drain := 0, changer := Inside)
    case Release => st.(paused := false, deferred := 0, changer := Replaying(st.deferred))
    case Replay =>
      if st.changer.n == 0 then st.(changer := Out)
      else st.(changer := Replaying(st.changer.n - 1), wake := Give(st.wake, |st.jobs|))
  }

  // ---- the invariant ----

  function JobOf(pc: Pc): Option<nat> {
    if HasJob(pc) then Some(pc.j) else None
  }

  // At most one job runs, and it is the one the scheduler works on.
  ghost predicate OneRunning(st: State) {
    && st.running == HasJob(st.pc)
    && forall i :: 0 <= i < |st.jobs| ==> (st.jobs[i].state == Running <==> JobOf(st.pc) == Some(i))
  }

  // The gate: while it drains, exactly one drain token exists or is still to come.
  ghost predicate GateOk(st: State) {
    && st.paused == (st.changer == Draining || st.changer == Inside)
    && (st.deferred > 0 ==> st.paused)
    && (st.changer == Inside ==> !st.running)
    && var owed := B2N(st.pc.Giving? && st.pc.drain);
       if st.changer == Draining then B2N(st.running) + owed + st.drain == 1
       else owed == 0 && st.drain == 0
  }

  function Held(pc: Pc): nat {
    B2N(pc == Woken || (pc.Giving? && pc.wake))
  }

  function ToReplay(c: Changer): nat {
    if c.Replaying? then c.n else 0
  }

  // Every runnable job is paid for by a wake token, given or still to come.
  ghost predicate TokensOk(st: State) {
    && st.wake <= |st.jobs|
    && RunnableCount(st.jobs) <= st.wake + st.deferred + st.owed + ToReplay(st.changer) + Held(st.pc)
  }

  // The job's context is in its slot.
  predicate Holds(st: State, i: nat, k: nat)
    requires i < |st.jobs|
  {
    st.jobs[i].ctx == Some(k) && st.pc != Restored(i)
  }

  // Occupied slots and jobs that name them correspond one to one; suspended jobs are the
  // ones that name a slot, with the running job on its way in or out.
  ghost predicate SlotsOwned(st: State) {
    && (forall i :: 0 <= i < |st.jobs| ==>
          var job := st.jobs[i];
          && (job.ctx.Some? ==> job.ctx.value < |st.slots|)
          && (job.ctx.Some? && st.pc != Restored(i) ==> st.slots[job.ctx.value] == Some(i))
          && (job.ctx.Some? ==>
                || job.state == Suspended || st.pc == Restored(i) || st.pc == Preempted(i)
                || (st.pc == Starting(i) && job.resuming))
          && (job.state == Suspended || st.pc == Preempted(i) || (st.pc == Starting(i) && job.resuming) ==>
                job.ctx.Some?)
          && (job.resuming ==> st.pc == Starting(i)))
    && (forall k :: 0 <= k < |st.slots| && st.slots[k].Some? ==>
          var i := st.slots[k].value;
          i < |st.jobs| && (Holds(st, i, k) || st.pc == Parked(i, k)))
    && (st.pc.Parked? ==> st.pc.slot < |st.slots| && st.slots[st.pc.slot] == Some(st.pc.j))
  }

  ghost predicate Conserved(st: State) {
    st.stats.accepted == st.stats.completed + st.stats.errors + st.stats.cancelled + ActiveCount(st.jobs)
  }

  ghost predicate Numbered(st: State) {
    && (forall i :: 0 <= i < |st.jobs| && st.jobs[i].state != Free ==>
          st.jobs[i].seqno < st.nextSeq && st.jobs[i].id < st.nextId)
    && DistinctSeqs(st.jobs)
    && forall i, k :: 0 <= i < k < |st.jobs| && st.jobs[i].state != Free && st.jobs[k].state != Free ==>
         st.jobs[i].id != st.jobs[k].id
  }

  // The job's context, if it has one, is parked in the slot it names.
  predicate Parks(st: State, i: nat)
    requires i < |st.jobs|
  {
    st.jobs[i].state == Suspended || (st.jobs[i].state == Running && st.pc != Restored(i))
  }

  // No slot is shared: a slot that a suspended or running job names holds its context.
  ghost predicate SlotsUnshared(st: State) {
    && (forall i :: 0 <= i < |st.jobs| && st.jobs[i].state == Queued ==> st.jobs[i].ctx.None?)
    && (forall i :: 0 <= i < |st.jobs| && Parks(st, i) && st.jobs[i].ctx.Some? ==>
          st.jobs[i].ctx.value < |st.slots| && st.slots[st.jobs[i].ctx.value] == Some(i))
    && (st.pc.Parked? ==> st.pc.slot < |st.slots| && st.slots[st.pc.slot] == Some(st.pc.j))
  }

  // What every event keeps, whatever the callers do.
  ghost predicate Inv(st: State) {
    && Shaped(st) && OneRunning(st) && GateOk(st) && TokensOk(st) && Conserved(st) && Numbered(st)
    && SlotsUnshared(st)
  }

  // ---- every event keeps it ----

  // Numbers stay distinct when no job becomes live or active.
  lemma NumberedUpdate(st: State, after: State, j: nat)
    requires Numbered(st) && j < |st.jobs| && |after.jobs| == |st.jobs|
    requires after.nextId == st.nextId && after.nextSeq == st.nextSeq
    requires after.jobs == st.jobs[j := after.jobs[j]]
    requires after.jobs[j].id == st.jobs[j].id && after.jobs[j].seqno == st.jobs[j].seqno
    requires after.jobs[j].state != Free ==> st.jobs[j].state != Free
    requires Active(after.jobs[j]) ==> Active(st.jobs[j])
    ensures Numbered(after)
  {
  }

  lemma NumberedSame(st: State, after: State)
    requires Numbered(st) && after.jobs == st.jobs && after.nextId == st.nextId && after.nextSeq == st.nextSeq
    ensures Numbered(after)
  {
  }

  // Slots stay unshared when one job's entry changes, and with it only its own slot or
  // an empty one.
  lemma UnsharedUpdate(st: State, after: State, j: nat)
    requires SlotsUnshared(st) && j < |st.jobs| == |after.jobs| && |st.slots| == |after.slots|
    requires after.jobs == st.jobs[j := after.jobs[j]]
    requires st.pc.Restored? ==> st.pc.j == j || after.pc == st.pc
    requires forall k :: 0 <= k < |st.slots| ==>
               after.slots[k] == st.slots[k] || st.slots[k].None? || st.slots[k] == Some(j)
    requires Parks(after, j) && after.jobs[j].ctx.Some? ==> Names(after, j)
    requires after.jobs[j].state == Queued ==> after.jobs[j].ctx.None?
    requires after.pc.Parked? ==> after.pc.slot < |after.slots| && after.slots[after.pc.slot] == Some(after.pc.j)
    ensures SlotsUnshared(after)
  {
  }

  predicate Names(st: State, j: nat)
    requires j < |st.jobs| && st.jobs[j].ctx.Some?
  {
    st.jobs[j].ctx.value < |st.slots| && st.slots[st.jobs[j].ctx.value] == Some(j)
  }

  lemma UnsharedSame(st: State, after: State)
    requires SlotsUnshared(st) && after.jobs == st.jobs && after.slots == st.slots
    requires after.pc == st.pc || (!st.pc.Restored? && !after.pc.Parked?)
    ensures SlotsUnshared(after)
  {
  }

  lemma SubmitKeeps(st: State, pipe: nat, priority: int, deadline: int, preemptible: bool)
    requires Inv(st) && Enabled(st, Submit(pipe, priority, deadline, preemptible))
    ensures Inv(DoSubmit(st, pipe, priority, deadline, preemptible))
  {
    FirstFreeIsFree(st.jobs, 0);
    var i := FirstFree(st.jobs, 0).value;
    var job := NewJob(st, pipe, priority, deadline, preemptible);
    var after := DoSubmit(st, pipe, priority, deadline, preemptible);
    CountsUpdate(st.jobs, i, job);
    hide RunnableCount, ActiveCount, FirstFree;
    SubmitNumbered(st, after, i);
    UnsharedUpdate(st, after, i);
    hide Numbered, SlotsUnshared;
  }

  lemma SubmitNumbered(st: State, after: State, i: nat)
    requires Numbered(st) && i < |st.jobs| && |after.jobs| == |st.jobs| && st.jobs[i].state == Free
    requires after.jobs == st.jobs[i := after.jobs[i]]
    requires after.jobs[i].id == st.nextId && after.jobs[i].seqno == st.nextSeq
    requires after.nextId == st.nextId + 1 && after.nextSeq == st.nextSeq + 1
    ensures Numbered(after)
  {
  }

  lemma CountBounded(jobs: seq<Job>)
    ensures RunnableCount(jobs) <= |jobs|
  {
    TotalAtMost(jobs, RunnableWeight());
  }

  lemma WakeStepsKeep(st: State, e: Event)
    requires Inv(st) && Enabled(st, e) && (e.SubmitGive? || e.Take? || e.Defer?)
    ensures Inv(Next(st, e))
  {
    CountBounded(st.jobs);
    NumberedSame(st, Next(st, e));
    UnsharedSame(st, Next(st, e));
    hide RunnableCount, ActiveCount, Numbered, SlotsUnshared;
  }

  lemma GiveStepsKeep(st: State, e: Event)
    requires Inv(st) && Enabled(st, e) && (e.GiveDrain? || e.GiveWake?)
    ensures Inv(Next(st, e))
  {
    CountBounded(st.jobs);
    NumberedSame(st, Next(st, e));
    UnsharedSame(st, Next(st, e));
    hide RunnableCount, ActiveCount, Numbered, SlotsUnshared;
  }

  lemma GateStepsKeep(st: State, e: Event)
    requires Inv(st) && Enabled(st, e) && (e.Quiesce? || e.DrainTaken? || e.Release?)
    ensures Inv(Next(st, e))
  {
    NumberedSame(st, Next(st, e));
    UnsharedSame(st, Next(st, e));
    hide RunnableCount, ActiveCount, Numbered, SlotsUnshared;
  }

  lemma ReplayKeeps(st: State)
    requires Inv(st) && Enabled(st, Replay)
    ensures Inv(Next(st, Replay))
  {
    CountBounded(st.jobs);
    NumberedSame(st, Next(st, Replay));
    UnsharedSame(st, Next(st, Replay));
    hide RunnableCount, ActiveCount, Numbered, SlotsUnshared;
  }

  // Job j is changed and nothing else but its slot.
  lemma JobChanged(st: State, after: State, j: nat)
    requires Inv(st) && j < |st.jobs| == |after.jobs|
    requires after.jobs == st.jobs[j := after.jobs[j]]
    requires after.jobs[j].id == st.jobs[j].id && after.jobs[j].seqno == st.jobs[j].seqno
    requires after.jobs[j].state != Free ==> st.jobs[j].state != Free
    requires Active(after.jobs[j]) ==> Active(st.jobs[j])
    requires after.nextId == st.nextId && after.nextSeq == st.nextSeq
    ensures Numbered(after)
    ensures RunnableCount(after.jobs) + B2N(Runnable(st.jobs[j])) ==
            RunnableCount(st.jobs) + B2N(Runnable(after.jobs[j]))
    ensures ActiveCount(after.jobs) + B2N(Active(st.jobs[j])) ==
            ActiveCount(st.jobs) + B2N(Active(after.jobs[j]))
  {
    CountsUpdate(st.jobs, j, after.jobs[j]);
    NumberedUpdate(st, after, j);
  }

  lemma CancelKeeps(st: State, j: nat)
    requires Inv(st) && j < |st.jobs| && Runnable(st.jobs[j])
    ensures Inv(Cancelled1(st, j))
  {
    var after := Cancelled1(st, j);
    JobChanged(st, after, j);
    UnsharedUpdate(st, after, j);
    hide RunnableCount, ActiveCount, Numbered, SlotsUnshared;
  }

  lemma ConsumeKeeps(st: State, j: nat)
    requires Inv(st) && Enabled(st, Consume(j))
    ensures Inv(Next(st, Consume(j)))
  {
    var after := Next(st, Consume(j));
    JobChanged(st, after, j);
    UnsharedUpdate(st, after, j);
    hide RunnableCount, ActiveCount, Numbered, SlotsUnshared;
  }

  lemma DispatchKeeps(st: State)
    requires Inv(st) && Enabled(st, Dispatch)
    ensures Inv(DoDispatch(st))
  {
    assert DistinctSeqs(st.jobs) && st.pc == Woken && !st.paused;
    hide Inv, DistinctSeqs, Before, Started;
    PickIsBest(st.jobs, |st.jobs|);
    var best := Pick(st.jobs, |st.jobs|);
    hide Pick;
    if best.None? {
      IdleKeeps(st);
    } else {
      StartKeeps(st, best.value);
    }
  }

  lemma IdleKeeps(st: State)
    requires Inv(st) && st.pc == Woken && forall i :: 0 <= i < |st.jobs| ==> !Runnable(st.jobs[i])
    ensures Inv(st.(pc := Blocked))
  {
    TotalZero(st.jobs, RunnableWeight());
    assert RunnableCount(st.jobs) == 0;
    NumberedSame(st, st.(pc := Blocked));
    UnsharedSame(st, st.(pc := Blocked));
    hide RunnableCount, ActiveCount, Numbered, SlotsUnshared;
  }

  lemma StartKeeps(st: State, j: nat)
    requires Inv(st) && st.pc == Woken && !st.paused && j < |st.jobs| && Runnable(st.jobs[j])
    ensures Inv(Started(st, j))
  {
    var after := Started(st, j);
    JobChanged(st, after, j);
    UnsharedUpdate(st, after, j);
    hide RunnableCount, ActiveCount, Numbered, SlotsUnshared;
  }

  predicate Finishing(st: State, ok: bool) {
    Enabled(st, Finish(ok)) || (Enabled(st, FailEarly) && !ok)
  }

  lemma FinishKeeps(st: State, ok: bool)
    requires Inv(st) && Finishing(st, ok)
    ensures Inv(DoFinish(st, ok))
  {
    var after := DoFinish(st, ok);
    JobChanged(st, after, st.pc.j);
    UnsharedUpdate(st, after, st.pc.j);
    hide RunnableCount, ActiveCount, Numbered, SlotsUnshared;
    FinishGate(st, ok);
    hide OneRunning, GateOk;
  }

  lemma FinishGate(st: State, ok: bool)
    requires Shaped(st) && OneRunning(st) && GateOk(st) && Finishing(st, ok)
    ensures OneRunning(DoFinish(st, ok)) && GateOk(DoFinish(st, ok))
  {
  }

  // A step of the running job that goes on running and changes its own entry alone.
  ghost predicate GoesOn(st: State, after: State) {
    && HasJob(st.pc) && HasJob(after.pc) && after.pc.j == st.pc.j < |st.jobs|
    && |after.jobs| == |st.jobs| && |after.slots| == |st.slots|
    && after.jobs == st.jobs[st.pc.j := after.jobs[st.pc.j]]
    && after.jobs[st.pc.j].state == st.jobs[st.pc.j].state
    && after.jobs[st.pc.j].id == st.jobs[st.pc.j].id && after.jobs[st.pc.j].seqno == st.jobs[st.pc.j].seqno
    && after == st.(jobs := after.jobs, slots := after.slots, pc := after.pc)
  }

  lemma GoingOnKeeps(st: State, after: State)
    requires Inv(st) && GoesOn(st, after) && SlotsUnshared(after)
    ensures Inv(after)
  {
    JobChanged(st, after, st.pc.j);
    hide RunnableCount, ActiveCount, Numbered, SlotsUnshared;
  }

  lemma RestoreKeeps(st: State)
    requires Inv(st) && Enabled(st, Restore)
    ensures Inv(DoRestore(st))
  {
    var after := DoRestore(st);
    UnsharedUpdate(st, after, st.pc.j);
    hide Inv, SlotsUnshared, Occupied, SlotFreed;
    GoingOnKeeps(st, after);
  }

  lemma ParkKeeps(st: State)
    requires Inv(st) && Enabled(st, Park)
    ensures Inv(DoPark(st))
  {
    FirstSlotIsFree(st.slots, 0);
    hide FirstSlot, TokensOk, Conserved, Numbered, GateOk;
    UnsharedUpdate(st, DoPark(st), st.pc.j);
    hide Inv, SlotsUnshared;
    GoingOnKeeps(st, DoPark(st));
  }

  lemma StepGoesOn(st: State, e: Event)
    requires Enabled(st, e) && (e.Begin? || e.SeePreemptor? || e.ClearCtx? || e.Record?)
    ensures GoesOn(st, Next(st, e)) && Next(st, e).slots == st.slots && !Next(st, e).pc.Parked?
    ensures !Next(st, e).pc.Restored?
    ensures e.Begin? || e.SeePreemptor? ==> Next(st, e).jobs == st.jobs && !st.pc.Restored?
    ensures e.ClearCtx? ==> Next(st, e).jobs[st.pc.j].ctx.None?
    ensures e.Record? ==> st.pc.Parked? && Next(st, e).jobs[st.pc.j].ctx == Some(st.pc.slot)
  {
    hide PreemptPending;
  }

  lemma RunningKeeps(st: State, e: Event)
    requires Inv(st) && Enabled(st, e) && (e.Begin? || e.SeePreemptor? || e.ClearCtx? || e.Record?)
    ensures Inv(Next(st, e))
  {
    StepGoesOn(st, e);
    assert SlotsUnshared(st) && OneRunning(st);
    var after := Next(st, e);
    hide Inv, Next, Enabled;
    if e.Begin? || e.SeePreemptor? {
      UnsharedSame(st, after);
    } else {
      UnsharedUpdate(st, after, st.pc.j);
    }
    hide SlotsUnshared, OneRunning, GoesOn;
    GoingOnKeeps(st, after);
  }

  lemma SuspendKeeps(st: State)
    requires Inv(st) && Enabled(st, Suspend)
    ensures Inv(Next(st, Suspend))
  {
    var after := Next(st, Suspend);
    JobChanged(st, after, st.pc.j);
    UnsharedUpdate(st, after, st.pc.j);
    hide RunnableCount, ActiveCount, Numbered, SlotsUnshared;
  }

  // ---- destroying a pipeline ----

  lemma RobKeeps(st: State, j: nat)
    requires Inv(st) && j < |st.jobs| && st.jobs[j].state == Suspended
    ensures Inv(st.(jobs := st.jobs[j := st.jobs[j].(ctx := None)], slots := SlotFreed(st.slots, st.jobs[j].ctx)))
  {
    var after := st.(jobs := st.jobs[j := st.jobs[j].(ctx := None)], slots := SlotFreed(st.slots, st.jobs[j].ctx));
    JobChanged(st, after, j);
    UnsharedUpdate(st, after, j);
    hide RunnableCount, ActiveCount, Numbered, SlotsUnshared;
  }

  lemma {:induction false} DestroyKeeps(st: State, pipe: nat, n: nat)
    requires Inv(st) && n <= |st.jobs|
    ensures Inv(DestroyFirst(st, pipe, n))
  {
    hide Inv, SlotFreed;
    if n > 0 {
      DestroyKeeps(st, pipe, n - 1);
      var mid := DestroyFirst(st, pipe, n - 1);
      if Runnable(mid.jobs[n - 1]) && mid.jobs[n - 1].pipe == pipe {
        CancelKeeps(mid, n - 1);
      } else if mid.jobs[n - 1].state == Suspended {
        RobKeeps(mid, n - 1);
      }
    }
  }

  lemma StepKeepsInv(st: State, e: Event)
    requires Inv(st) && Enabled(st, e)
    ensures Inv(Next(st, e))
  {
    match e
    case Submit(p, prio, deadline, pre) => SubmitKeeps(st, p, prio, deadline, pre);
    case SubmitGive => WakeStepsKeep(st, e);
    case Cancel(j) => CancelKeeps(st, j);
    case Consume(j) => ConsumeKeeps(st, j);
    case Destroy(p) => DestroyKeeps(st, p, |st.jobs|);
    case Take => WakeStepsKeep(st, e);
    case Defer => WakeStepsKeep(st, e);
    case Dispatch => DispatchKeeps(st);
    case FailEarly => FinishKeeps(st, false);
    case Begin => RunningKeeps(st, e);
    case Restore => RestoreKeeps(st);
    case ClearCtx => RunningKeeps(st, e);
    case SeePreemptor => RunningKeeps(st, e);
    case Park => ParkKeeps(st);
    case Record => RunningKeeps(st, e);
    case Suspend => SuspendKeeps(st);
    case Finish(ok) => FinishKeeps(st, ok);
    case GiveDrain => GiveStepsKeep(st, e);
    case GiveWake => GiveStepsKeep(st, e);
    case Quiesce => GateStepsKeep(st, e);
    case DrainTaken => GateStepsKeep(st, e);
    case Release => GateStepsKeep(st, e);
    case Replay => ReplayKeeps(st);
  }

  // ---- suspension slots are accounted for ----

  // Events that leave jobs and slots alone and start or end no leg of a job.
  lemma SlotsSame(st: State, after: State)
    requires SlotsOwned(st) && after.jobs == st.jobs && after.slots == st.slots
    requires after.pc == st.pc || (!HasJob(st.pc) && !HasJob(after.pc))
    ensures SlotsOwned(after)
  {
  }

  lemma QuietSlots(st: State, e: Event)
    requires SlotsOwned(st) && Enabled(st, e)
    requires || e.SubmitGive? || e.Take? || e.Defer? || e.GiveDrain? || e.GiveWake?
             || e.Quiesce? || e.DrainTaken? || e.Release? || e.Replay?
    ensures SlotsOwned(Next(st, e))
  {
    hide SlotsOwned;
    SlotsSame(st, Next(st, e));
  }

  lemma DriveSlots(st: State, e: Event)
    requires Shaped(st) && SlotsOwned(st) && Enabled(st, e) && (e.Begin? || e.SeePreemptor?)
    ensures SlotsOwned(Next(st, e))
  {
    hide PreemptPending, SlotsOwned;
    LegSlots(st, Next(st, e));
  }

  // A job that is not resuming moves on inside its leg.
  lemma LegSlots(st: State, after: State)
    requires SlotsOwned(st) && after.jobs == st.jobs && after.slots == st.slots
    requires HasJob(st.pc) && st.pc.j < |st.jobs|
    requires || (st.pc.Starting? && !st.jobs[st.pc.j].resuming && after.pc == Working(st.pc.j))
             || (st.pc.Working? && after.pc == Yielding(st.pc.j))
    ensures SlotsOwned(after)
  {
  }

  lemma SubmitSlots(st: State, after: State, i: nat)
    requires SlotsOwned(st) && OneRunning(st) && i < |st.jobs| && |after.jobs| == |st.jobs| && st.jobs[i].state == Free
    requires after.jobs == st.jobs[i := after.jobs[i]] && after.pc == st.pc && after.slots == st.slots
    requires after.jobs[i].state == Queued && after.jobs[i].ctx.None? && !after.jobs[i].resuming
    ensures SlotsOwned(after)
  {
  }

  lemma CancelSlots(st: State, j: nat)
    requires Shaped(st) && SlotsOwned(st) && OneRunning(st) && j < |st.jobs| && Runnable(st.jobs[j])
    ensures SlotsOwned(Cancelled1(st, j))
  {
  }

  lemma ConsumeSlots(st: State, j: nat)
    requires SlotsOwned(st) && OneRunning(st) && Enabled(st, Consume(j))
    ensures SlotsOwned(Next(st, Consume(j)))
  {
  }

  lemma DispatchSlots(st: State)
    requires Inv(st) && SlotsOwned(st) && Enabled(st, Dispatch)
    ensures SlotsOwned(DoDispatch(st))
  {
    assert DistinctSeqs(st.jobs) && OneRunning(st) && Shaped(st) && st.pc == Woken;
    hide Inv, DistinctSeqs, Before, SlotsOwned, OneRunning, Shaped, Enabled, Started, Runnable;
    PickIsBest(st.jobs, |st.jobs|);
    var best := Pick(st.jobs, |st.jobs|);
    hide Pick;
    if best.Some? {
      StartSlots(st, best.value);
    } else {
      SlotsSame(st, st.(pc := Blocked));
    }
  }

  lemma StartSlots(st: State, j: nat)
    requires Shaped(st) && SlotsOwned(st) && OneRunning(st) && st.pc == Woken && j < |st.jobs| && Runnable(st.jobs[j])
    ensures SlotsOwned(Started(st, j))
  {
  }

  lemma FinishSlots(st: State, ok: bool)
    requires Shaped(st) && SlotsOwned(st) && OneRunning(st) && Finishing(st, ok)
    requires st.pc.Starting? ==> !st.jobs[st.pc.j].resuming
    ensures SlotsOwned(DoFinish(st, ok))
  {
    var j := st.pc.j;
    assert st.jobs[j].ctx.None?;
    FinishedSlots(st, DoFinish(st, ok), j);
  }

  lemma FinishedSlots(st: State, after: State, j: nat)
    requires SlotsOwned(st) && OneRunning(st) && j < |st.jobs| && st.jobs[j].ctx.None? && !st.jobs[j].resuming
    requires (st.pc.Starting? || st.pc.Refused? || st.pc.Working?) && st.pc.j == j
    requires |after.jobs| == |st.jobs| && after.jobs == st.jobs[j := after.jobs[j]] && after.slots == st.slots &&
             after.pc.Giving?
    requires after.jobs[j].ctx.None? && !after.jobs[j].resuming && after.jobs[j].state in {Done, Error}
    ensures SlotsOwned(after)
  {
  }

  lemma RestoreSlots(st: State)
    requires SlotsOwned(st) && OneRunning(st) && Enabled(st, Restore)
    ensures SlotsOwned(DoRestore(st))
  {
  }

  lemma ClearCtxSlots(st: State)
    requires SlotsOwned(st) && OneRunning(st) && Enabled(st, ClearCtx)
    ensures SlotsOwned(Next(st, ClearCtx))
  {
  }

  lemma ParkSlots(st: State)
    requires SlotsOwned(st) && OneRunning(st) && Enabled(st, Park)
    ensures SlotsOwned(DoPark(st))
  {
    FirstSlotIsFree(st.slots, 0);
    var k := FirstSlot(st.slots, 0);
    hide FirstSlot;
    if k.Some? {
      ParkedSlots(st, st.pc.j, k.value);
    } else {
      KeptSlots(st, st.pc.j);
    }
  }

  lemma ParkedSlots(st: State, j: nat, k: nat)
    requires SlotsOwned(st) && st.pc == Yielding(j) && j < |st.jobs| && k < |st.slots| && st.slots[k].None?
    ensures SlotsOwned(st.(slots := st.slots[k := Some(j)], pc := Parked(j, k)))
  {
  }

  lemma KeptSlots(st: State, j: nat)
    requires SlotsOwned(st) && st.pc == Yielding(j)
    ensures SlotsOwned(st.(pc := Working(j)))
  {
  }

  lemma RecordSlots(st: State)
    requires SlotsOwned(st) && OneRunning(st) && Enabled(st, Record)
    ensures SlotsOwned(Next(st, Record))
  {
  }

  lemma SuspendSlots(st: State)
    requires SlotsOwned(st) && OneRunning(st) && Enabled(st, Suspend)
    ensures SlotsOwned(Next(st, Suspend))
  {
  }

  ghost predicate OnlySuspended(jobs: seq<Job>, pipe: nat) {
    forall i :: 0 <= i < |jobs| && jobs[i].state == Suspended ==> jobs[i].pipe == pipe
  }

  lemma DestroyOneSlots(st: State, pipe: nat, j: nat)
    requires Shaped(st) && SlotsOwned(st) && OneRunning(st) && OnlySuspended(st.jobs, pipe) && j < |st.jobs|
    ensures SlotsOwned(DestroyOne(st, pipe, j)) && OnlySuspended(DestroyOne(st, pipe, j).jobs, pipe)
  {
    hide SlotsOwned, SlotFreed;
    if Runnable(st.jobs[j]) && st.jobs[j].pipe == pipe {
      CancelSlots(st, j);
    }
  }

  lemma {:induction false} DestroySlots(st: State, pipe: nat, n: nat)
    requires Inv(st) && SlotsOwned(st) && OnlySuspended(st.jobs, pipe) && n <= |st.jobs|
    ensures SlotsOwned(DestroyFirst(st, pipe, n)) && OnlySuspended(DestroyFirst(st, pipe, n).jobs, pipe)
  {
    hide Inv, SlotsOwned, OnlySuspended, DestroyOne, Shaped, OneRunning;
    if n > 0 {
      DestroySlots(st, pipe, n - 1);
      DestroyKeeps(st, pipe, n - 1);
      InvShape(DestroyFirst(st, pipe, n - 1));
      DestroyOneSlots(DestroyFirst(st, pipe, n - 1), pipe, n - 1);
    }
  }

  lemma InvShape(st: State)
    requires Inv(st)
    ensures Shaped(st) && OneRunning(st)
  {
  }

  // What the destroy loop has done to job i after n rounds.
  lemma {:induction false} DestroyedJob(st: State, pipe: nat, n: nat, i: nat)
    requires n <= |st.jobs| && i < |st.jobs|
    ensures var job := DestroyFirst(st, pipe, n).jobs[i];
            if i >= n then job == st.jobs[i]
            else if Runnable(st.jobs[i]) && st.jobs[i].pipe == pipe then job.state == Cancelled
            else job.state == st.jobs[i].state && (job.state == Suspended ==> job.ctx.None?)
  {
    hide SlotFreed;
    if n > 0 {
      DestroyedJob(st, pipe, n - 1, i);
    }
  }

  lemma DestroyRobs(st: State, pipe: nat, i: nat)
    requires Shaped(st) && i < |st.jobs| && st.jobs[i].state == Suspended && st.jobs[i].pipe != pipe
    ensures !SlotsOwned(Next(st, Destroy(pipe)))
  {
    DestroyedJob(st, pipe, |st.jobs|, i);
    var after := DestroyFirst(st, pipe, |st.jobs|);
    hide DestroyFirst;
    assert after.jobs[i].state == Suspended && after.jobs[i].ctx.None?;
  }

  // What the callers must respect for the suspension slots to stay accounted for: a
  // pipeline is destroyed only while no other pipeline has a suspended job, and a job
  // about to resume does not fail before its context is restored.
  ghost predicate Disciplined(st: State, e: Event)
    requires Enabled(st, e)
  {
    match e
    case Destroy(p) => OnlySuspended(st.jobs, p)
    case FailEarly => !st.jobs[st.pc.j].resuming
    case _ => true
  }

  // An event breaks the correspondence exactly when it is one of those two.
  lemma StepKeepsSlotsIff(st: State, e: Event)
    requires Inv(st) && SlotsOwned(st) && Enabled(st, e)
    ensures SlotsOwned(Next(st, e)) <==> Disciplined(st, e)
  {
    hide SlotsOwned, TokensOk, Conserved, GateOk, Numbered, SlotsUnshared, OnlySuspended;
    match e
    case Destroy(p) => DestroySlotsIff(st, p);
    case FailEarly => FailEarlySlotsIff(st);
    case Finish(ok) => FinishSlots(st, ok);
    case Submit(_, _, _, _) =>
      FirstFreeIsFree(st.jobs, 0);
      SubmitSlots(st, Next(st, e), FirstFree(st.jobs, 0).value);
    case Cancel(j) => CancelSlots(st, j);
    case Consume(j) => ConsumeSlots(st, j);
    case Dispatch => DispatchSlots(st);
    case Restore => RestoreSlots(st);
    case ClearCtx => ClearCtxSlots(st);
    case Park => ParkSlots(st);
    case Record => RecordSlots(st);
    case Suspend => SuspendSlots(st);
    case Begin => DriveSlots(st, e);
    case SeePreemptor => DriveSlots(st, e);
    case _ => QuietSlots(st, e);
  }

  // Destroying a pipeline keeps every suspended job in possession of its slot exactly
  // when no other pipeline has a suspended job.
  lemma DestroySlotsIff(st: State, pipe: nat)
    requires Inv(st) && SlotsOwned(st)
    ensures SlotsOwned(DestroyFirst(st, pipe, |st.jobs|)) <==> OnlySuspended(st.jobs, pipe)
  {
    assert Shaped(st);
    hide SlotsOwned, Inv;
    if OnlySuspended(st.jobs, pipe) {
      DestroySlots(st, pipe, |st.jobs|);
    } else {
      var i :| 0 <= i < |st.jobs| && st.jobs[i].state == Suspended && st.jobs[i].pipe != pipe;
      assert Next(st, Destroy(pipe)) == DestroyFirst(st, pipe, |st.jobs|);
      DestroyRobs(st, pipe, i);
    }
  }

  // A job that fails before its pipeline runs gives up nothing: its slot leaks exactly
  // when it was about to resume.
  lemma FailEarlySlotsIff(st: State)
    requires Inv(st) && SlotsOwned(st) && Enabled(st, FailEarly)
    ensures SlotsOwned(DoFinish(st, false)) <==> !st.jobs[st.pc.j].resuming
  {
    if !st.jobs[st.pc.j].resuming {
      FinishSlots(st, false);
    } else {
      var after := DoFinish(st, false);
      assert after.jobs[st.pc.j].ctx.Some? && after.jobs[st.pc.j].state == Error;
    }
  }

  // ---- runs ----

  const NO_JOB := Job(0, Free, 0, 0, 0, 0, false, None, false)

  function Initial(capacity: nat): State {
    State(seq(capacity, _ => NO_JOB), Blocked, 0, 0, 0, false, false, 0, Out,
          seq(CTX_SLOTS, _ => None), Stats(0, 0, 0, 0), 1, 0)
  }

  lemma InitialInv(capacity: nat)
    ensures Inv(Initial(capacity)) && SlotsOwned(Initial(capacity))
  {
    var st := Initial(capacity);
    TotalZero(st.jobs, RunnableWeight());
    TotalZero(st.jobs, ActiveWeight());
    assert RunnableCount(st.jobs) == 0 && ActiveCount(st.jobs) == 0;
    hide RunnableCount, ActiveCount;
  }

  ghost predicate Possible(st: State, run: seq<Event>)
    decreases |run|
  {
    run == [] || (Enabled(st, run[0]) && Possible(Next(st, run[0]), run[1..]))
  }

  function Run(st: State, run: seq<Event>): State
    requires Possible(st, run)
    decreases |run|
  {
    if run == [] then st else Run(Next(st, run[0]), run[1..])
  }

  lemma {:induction false} RunKeepsInv(st: State, run: seq<Event>)
    requires Inv(st) && Possible(st, run)
    ensures Inv(Run(st, run))
    decreases |run|
  {
    hide Inv, Enabled, Next;
    if run != [] {
      StepKeepsInv(st, run[0]);
      RunKeepsInv(Next(st, run[0]), run[1..]);
    }
  }

  ghost predicate DisciplinedRun(st: State, run: seq<Event>)
    requires Possible(st, run)
    decreases |run|
  {
    run == [] || (Disciplined(st, run[0]) && DisciplinedRun(Next(st, run[0]), run[1..]))
  }

  lemma {:induction false} RunKeepsSlots(st: State, run: seq<Event>)
    requires Inv(st) && SlotsOwned(st) && Possible(st, run) && DisciplinedRun(st, run)
    ensures SlotsOwned(Run(st, run))
    decreases |run|
  {
    hide Inv, SlotsOwned, Enabled, Disciplined, Next;
    if run != [] {
      StepKeepsInv(st, run[0]);
      StepKeepsSlotsIff(st, run[0]);
      RunKeepsSlots(Next(st, run[0]), run[1..]);
    }
  }

  // ---- what the invariant means, over every run ----

  // No lost wakeup: runnable jobs never outnumber the tokens given, deferred or still to
  // come, though the semaphore drops gives at its cap; so a scheduler blocked with no
  // token left anywhere and no change in progress has nothing to run.
  lemma NoLostWakeup(capacity: nat, run: seq<Event>)
    requires Possible(Initial(capacity), run)
    ensures var st := Run(Initial(capacity), run);
            && RunnableCount(st.jobs) <= st.wake + st.deferred + st.owed + ToReplay(st.changer) + Held(st.pc)
            && (st.pc == Blocked && st.wake == 0 && st.owed == 0 && st.changer == Out ==>
                  forall i :: 0 <= i < |st.jobs| ==> !Runnable(st.jobs[i]))
  {
    InitialInv(capacity);
    RunKeepsInv(Initial(capacity), run);
    var st := Run(Initial(capacity), run);
    TotalZero(st.jobs, RunnableWeight());
    assert RunnableCount(st.jobs) == Total(st.jobs, RunnableWeight());
    hide Possible, Run, Total, SlotsUnshared, Conserved, Numbered;
  }

  // Mutual exclusion: at most one job runs, and none while the gate holder is inside;
  // and a holder that waits is never stranded.
  ghost predicate Excluded(st: State) {
    && (forall i, k :: 0 <= i < k < |st.jobs| ==> st.jobs[i].state != Running || st.jobs[k].state != Running)
    && (st.changer == Inside ==> forall i :: 0 <= i < |st.jobs| ==> st.jobs[i].state != Running)
    && (st.changer == Draining && !HasJob(st.pc) && !st.pc.Giving? ==> st.drain > 0)
  }

  lemma InvExcludes(st: State)
    requires Inv(st)
    ensures Excluded(st)
  {
    hide SlotsUnshared, Conserved, Numbered, TokensOk;
  }

  lemma GateExcludes(capacity: nat, run: seq<Event>)
    requires Possible(Initial(capacity), run)
    ensures Excluded(Run(Initial(capacity), run))
  {
    hide Inv, Excluded, Possible, Run, Initial;
    InitialInv(capacity);
    RunKeepsInv(Initial(capacity), run);
    InvExcludes(Run(Initial(capacity), run));
  }

  // Every accepted job is completed, failed, cancelled or still in the table.
  lemma JobsConserved(capacity: nat, run: seq<Event>)
    requires Possible(Initial(capacity), run)
    ensures Conserved(Run(Initial(capacity), run))
  {
    hide Possible, Run, Initial, Conserved;
    InitialInv(capacity);
    RunKeepsInv(Initial(capacity), run);
  }

  // What is dispatched is the runnable job of the highest priority, among those the one
  // with the earliest deadline, and among those the one submitted first; nothing is
  // dispatched only when nothing can be.
  ghost predicate BestStarts(st: State) {
    match DoDispatch(st).pc
    case Starting(b) =>
      && Foremost(st.jobs, b)
      && forall i :: 0 <= i < |st.jobs| && i != b && Runnable(st.jobs[i]) ==> st.jobs[i].seqno != st.jobs[b].seqno
    case _ => forall i :: 0 <= i < |st.jobs| ==> !Runnable(st.jobs[i])
  }

  lemma InvStartsTheBest(st: State)
    requires Inv(st) && Enabled(st, Dispatch)
    ensures BestStarts(st)
  {
    assert DistinctSeqs(st.jobs);
    assert st.jobs[..|st.jobs|] == st.jobs;
    hide Inv, Foremost, Pick, Before, DistinctSeqs;
    PickIsForemost(st.jobs, |st.jobs|);
    PickIsBest(st.jobs, |st.jobs|);
    DispatchPc(st);
    hide DoDispatch;
    var best := Pick(st.jobs, |st.jobs|);
    if best.Some? {
      OthersDiffer(st.jobs, best.value);
    }
  }

  lemma DispatchPc(st: State)
    ensures var best := Pick(st.jobs, |st.jobs|);
            DoDispatch(st).pc == if best.None? || best.value >= |st.jobs| then Blocked else Starting(best.value)
  {
    hide Pick;
  }

  lemma OthersDiffer(jobs: seq<Job>, b: nat)
    requires DistinctSeqs(jobs) && b < |jobs| && Runnable(jobs[b])
    ensures forall i :: 0 <= i < |jobs| && i != b && Runnable(jobs[i]) ==> jobs[i].seqno != jobs[b].seqno
  {
  }

  lemma DispatchesTheBest(capacity: nat, run: seq<Event>)
    requires Possible(Initial(capacity), run) && Enabled(Run(Initial(capacity), run), Dispatch)
    ensures BestStarts(Run(Initial(capacity), run))
  {
    hide Inv, BestStarts, Possible, Run, Initial;
    InitialInv(capacity);
    RunKeepsInv(Initial(capacity), run);
    InvStartsTheBest(Run(Initial(capacity), run));
  }

  // A job gives way only to a queued one of strictly higher priority, and while such a
  // one is queued it is not dispatched again.
  lemma PreemptedJobWaits(capacity: nat, run: seq<Event>, j: nat)
    requires Possible(Initial(capacity), run)
    ensures var st := Run(Initial(capacity), run);
            && (Enabled(st, SeePreemptor) ==>
                  && st.pc.j < |st.jobs| && st.jobs[st.pc.j].preemptible
                  && exists i :: 0 <= i < |st.jobs| && st.jobs[i].state == Queued &&
                                 st.jobs[i].priority > st.jobs[st.pc.j].priority)
            && (Enabled(st, Dispatch) && j < |st.jobs| &&
                (exists i :: 0 <= i < |st.jobs| && st.jobs[i].state == Queued &&
                             st.jobs[i].priority > st.jobs[j].priority)
                ==> DoDispatch(st).pc != Starting(j))
  {
    var st := Run(Initial(capacity), run);
    if Enabled(st, Dispatch) {
      DispatchesTheBest(capacity, run);
    }
    hide Possible, Run, Initial, Pick;
  }

  // Whatever its callers do, the scheduler never resumes a job from another's context: a
  // restore that is not refused reads the slot that holds this very job's.
  lemma ResumesOwnContext(capacity: nat, run: seq<Event>)
    requires Possible(Initial(capacity), run)
    ensures var st := Run(Initial(capacity), run);
            && (Enabled(st, Restore) && Next(st, Restore).pc.Restored? ==>
                  st.slots[st.jobs[st.pc.j].ctx.value] == Some(st.pc.j))
            && (forall i, k :: 0 <= i < k < |st.jobs| && Parks(st, i) && Parks(st, k) && st.jobs[i].ctx.Some? ==>
                  st.jobs[i].ctx != st.jobs[k].ctx)
  {
    InitialInv(capacity);
    RunKeepsInv(Initial(capacity), run);
    hide Possible, Run, Initial, Conserved, Numbered, TokensOk, GateOk;
  }

  // What the calls and the end of a job leave in its entry, and where it is counted.
  lemma FatesAreRecorded(st: State, e: Event)
    requires Inv(st) && Enabled(st, e)
    ensures var after := Next(st, e);
            match e
            case Cancel(j) =>
              && after.jobs[j].state == Cancelled
              && after.stats == st.stats.(cancelled := st.stats.cancelled + 1)
              && (st.jobs[j].state == Suspended && st.jobs[j].ctx.Some? ==> after.slots[st.jobs[j].ctx.value].None?)
            case Consume(j) => after.jobs[j].state == Free && after.stats == st.stats
            case Finish(ok) =>
              && st.pc.j < |st.jobs|
              && after.jobs[st.pc.j].state == (if ok then Done else Error)
              && after.stats == (if ok then st.stats.(completed := st.stats.completed + 1)
                                 else st.stats.(errors := st.stats.errors + 1))
            case FailEarly =>
              && st.pc.j < |st.jobs|
              && after.jobs[st.pc.j].state == Error && after.stats == st.stats.(errors := st.stats.errors + 1)
            case Submit(pipe, priority, deadline, preemptible) =>
              exists i :: 0 <= i < |st.jobs| && st.jobs[i].state == Free &&
                          after.jobs == st.jobs[i := Job(st.nextId, Queued, pipe, priority, deadline, st.nextSeq,
                                                         preemptible, None, false)] &&
                          after.nextId == st.nextId + 1 && after.nextSeq == st.nextSeq + 1
            case _ => true
  {
    hide OneRunning, GateOk, TokensOk, Conserved, Numbered;
    if e.Submit? {
      FirstFreeIsFree(st.jobs, 0);
      var i := FirstFree(st.jobs, 0).value;
      hide FirstFree;
      assert 0 <= i < |st.jobs| && st.jobs[i].state == Free;
      assert Next(st, e).jobs == st.jobs[i := Job(st.nextId, Queued, e.pipe, e.priority, e.deadline, st.nextSeq,
                                                  e.preemptible, None, false)];
    }
  }

  // Destroying a pipeline cancels its waiting jobs and leaves every other job's state.
  lemma DestroyCancelsItsOwn(st: State, pipe: nat, i: nat)
    requires Inv(st) && i < |st.jobs|
    ensures Enabled(st, Destroy(pipe)) && |Next(st, Destroy(pipe)).jobs| == |st.jobs|
    ensures Next(st, Destroy(pipe)).jobs[i].state ==
            if st.jobs[i].pipe == pipe && (st.jobs[i].state == Queued || st.jobs[i].state == Suspended)
            then Cancelled else st.jobs[i].state
  {
    DestroyedJob(st, pipe, |st.jobs|, i);
    hide DestroyFirst;
  }

  // ---- over disciplined runs ----

  // Jobs that name a slot and occupied slots correspond one to one: a job names the slot
  // that holds it, an occupied slot holds the job that names it (or whose context was
  // just saved there), and every suspended job names one. So slots never leak: with no
  // job suspended and the scheduler between jobs every slot is free.
  ghost predicate SlotsAccounted(st: State) {
    && (forall i :: 0 <= i < |st.jobs| && st.jobs[i].ctx.Some? && st.pc != Restored(i) ==> Names(st, i))
    && (forall k :: 0 <= k < |st.slots| && st.slots[k].Some? ==>
          var i := st.slots[k].value;
          i < |st.jobs| && (st.jobs[i].ctx == Some(k) || st.pc == Parked(i, k)) && Active(st.jobs[i]))
    && (forall i :: 0 <= i < |st.jobs| && st.jobs[i].state == Suspended ==> st.jobs[i].ctx.Some?)
    && (!HasJob(st.pc) && (forall i :: 0 <= i < |st.jobs| ==> st.jobs[i].state != Suspended) ==>
          forall k :: 0 <= k < |st.slots| ==> st.slots[k].None?)
  }

  lemma OwnedAccounts(st: State)
    requires Inv(st) && SlotsOwned(st)
    ensures SlotsAccounted(st)
  {
    hide Conserved, Numbered, TokensOk, GateOk, SlotsUnshared;
  }

  lemma SlotsNeverLeak(capacity: nat, run: seq<Event>)
    requires Possible(Initial(capacity), run) && DisciplinedRun(Initial(capacity), run)
    ensures SlotsAccounted(Run(Initial(capacity), run))
  {
    hide Inv, SlotsOwned, SlotsAccounted, Possible, DisciplinedRun, Run, Initial;
    InitialInv(capacity);
    RunKeepsInv(Initial(capacity), run);
    RunKeepsSlots(Initial(capacity), run);
    OwnedAccounts(Run(Initial(capacity), run));
  }
}
