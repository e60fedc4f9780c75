// Jobs that run layer by layer: the scheduler of InferScheduler driving the executor of
// LayeredExecutor, each with its own table of suspension slots.
//
// Whatever submitters, cancellers and pipeline owners do, and however often a job is
// preempted, a job that completes with layered output has the bytes that an executor
// with separate buffers computes from the blob and the input the job began with.
module InferLayered {
  import opened Errno
  import opened Bytes
  import S = InferScheduler
  import L = LayeredExecutor

  // What a job began with.
  datatype Work = Work(blob: seq<u8>, input: seq<u8>)

  // What the job in the pipeline is doing with the executor. Plain: nothing, or its model
  // is not layered. Layers: the live session is its own. Handed: it took its output.
  datatype Leg = Plain | Layers | Handed | Failing

  // ideal runs beside the executor as built; work and result belong to the job table.
  datatype System = System(sched: S.State, npu: L.Npu, ideal: L.Ideal, leg: Leg,
                           work: map<nat, Work>, result: map<nat, seq<u8>>)

  datatype Step =
    | Sched(e: S.Event)
    | Load(data: Option<seq<u8>>)              // a residency change
    | BeginLayers(input: Option<seq<u8>>)
    | Layer
    | TakeOutput(capacity: Option<nat>)

  // ---- calls of the executor ----

  // A call on a session whose plan is gone does nothing here; none is ever made.
  ghost function NpuCall(cfg: L.Config, c: L.Npu, op: L.Op): (r: (L.Npu, L.Reply))
    requires L.NpuValid(cfg, c)
    ensures L.NpuValid(cfg, r.0)
  {
    if L.SessionOp(op) && c.live.Broken? then (c, L.Failed(EPERM)) else L.NpuNext(cfg, c, op)
  }

  ghost function IdealCall(cfg: L.Config, s: L.Ideal, op: L.Op): (r: (L.Ideal, L.Reply))
    requires L.IdealValid(cfg, s)
    ensures L.IdealValid(cfg, r.0)
  {
    if L.SessionOp(op) && s.live.Broken? then (s, L.Failed(EPERM)) else L.IdealNext(cfg, s, op)
  }

  lemma CallsAgree(cfg: L.Config, c: L.Npu, s: L.Ideal, op: L.Op)
    requires L.Simulates(cfg, c, s) && (L.SessionOp(op) ==> !s.live.Broken?)
    ensures NpuCall(cfg, c, op).1 == IdealCall(cfg, s, op).1
    ensures L.Simulates(cfg, NpuCall(cfg, c, op).0, IdealCall(cfg, s, op).0)
  {
    L.SimulatesRest(cfg, c, s, op);
    L.CallAgrees(cfg, c, s, op);
    hide L.Simulates, L.NpuNext, L.IdealNext;
  }

  // The slot argument of restore and slot_free; -1 when the job has none.
  function SlotArg(ctx: Option<nat>): int {
    if ctx.Some? then ctx.value else -1
  }

  // The contexts that destroying a pipeline frees: those of the suspended jobs among the
  // first n.
  function Frees(jobs: seq<S.Job>, n: nat): seq<L.Op>
    requires n <= |jobs|
  {
    if n == 0 then []
    else Frees(jobs, n - 1) + if jobs[n - 1].state == S.Suspended then [L.Op.SlotFree(SlotArg(jobs[n - 1].ctx))] else []
  }

  // What an event of the scheduler calls.
  function CallsOf(st: S.State, e: S.Event): seq<L.Op>
    requires S.Enabled(st, e)
  {
    match e
    case Park => [L.Op.Save]
    case Restore => [L.Op.Restore(SlotArg(st.jobs[st.pc.j].ctx))]
    case Cancel(j) => if st.jobs[j].state == S.Suspended then [L.Op.SlotFree(SlotArg(st.jobs[j].ctx))] else []
    case Destroy(_) => Frees(st.jobs, |st.jobs|)
    case _ => []
  }

  ghost function NpuCalls(cfg: L.Config, c: L.Npu, ops: seq<L.Op>): (r: L.Npu)
    requires L.NpuValid(cfg, c)
    ensures L.NpuValid(cfg, r)
    decreases |ops|
  {
    if ops == [] then c else NpuCall(cfg, NpuCalls(cfg, c, ops[..|ops| - 1]), ops[|ops| - 1]).0
  }

  ghost function IdealCalls(cfg: L.Config, s: L.Ideal, ops: seq<L.Op>): (r: L.Ideal)
    requires L.IdealValid(cfg, s)
    ensures L.IdealValid(cfg, r)
    decreases |ops|
  {
    if ops == [] then s else IdealCall(cfg, IdealCalls(cfg, s, ops[..|ops| - 1]), ops[|ops| - 1]).0
  }

  // ---- the system ----

  ghost predicate Valid(cfg: L.Config, y: System) {
    L.NpuValid(cfg, y.npu) && L.IdealValid(cfg, y.ideal)
  }

  predicate Can(y: System, t: Step) {
    match t
    case Sched(e) =>
      && S.Enabled(y.sched, e)
      && (e.SeePreemptor? ==> y.leg == Layers)
      && (e == S.Finish(true) ==> y.leg == Plain || y.leg == Handed)
    case Load(_) => true
    case BeginLayers(_) => y.sched.pc.Working? && (y.leg == Plain || y.leg == Handed)
    case Layer => y.sched.pc.Working? && y.leg == Layers
    case TakeOutput(_) => y.sched.pc.Working? && y.leg == Layers
  }

  function LegAfter(y: System, e: S.Event): Leg
    requires S.Enabled(y.sched, e)
  {
    match e
    case Park => if S.FirstSlot(y.sched.slots, 0).Some? then Plain else y.leg
    case Restore => if S.Occupied(y.sched.slots, y.sched.jobs[y.sched.pc.j].ctx) then Layers else Plain
    case Finish(_) => Plain
    case _ => y.leg
  }

  // A new job takes over its entry of the table.
  function Renewed<T>(m: map<nat, T>, st: S.State, e: S.Event): map<nat, T>
    requires S.Enabled(st, e)
  {
    if e.Submit? then m - {S.FirstFree(st.jobs, 0).value} else m
  }

  ghost function AfterSched(cfg: L.Config, y: System, e: S.Event): (z: System)
    requires Valid(cfg, y) && S.Enabled(y.sched, e)
    ensures Valid(cfg, z)
  {
    System(S.Next(y.sched, e), NpuCalls(cfg, y.npu, CallsOf(y.sched, e)), IdealCalls(cfg, y.ideal, CallsOf(y.sched, e)),
           LegAfter(y, e), Renewed(y.work, y.sched, e), Renewed(y.result, y.sched, e))
  }

  ghost function AfterCall(cfg: L.Config, y: System, op: L.Op): (z: System)
    requires Valid(cfg, y)
    ensures Valid(cfg, z)
  {
    y.(npu := NpuCall(cfg, y.npu, op).0, ideal := IdealCall(cfg, y.ideal, op).0)
  }

  ghost function AfterBegin(cfg: L.Config, y: System, input: Option<seq<u8>>): (z: System)
    requires Valid(cfg, y) && y.sched.pc.Working?
    ensures Valid(cfg, z)
  {
    var z := AfterCall(cfg, y, L.Op.Begin(input));
    var reply := NpuCall(cfg, y.npu, L.Op.Begin(input)).1;
    if reply.Count? && reply.n > 0 && y.npu.resident.Some? && input.Some? then
      z.(leg := Layers, work := y.work[y.sched.pc.j := Work(y.npu.resident.value, input.value)],
         result := y.result - {y.sched.pc.j})
    else if reply.Count? then z
    else z.(leg := Failing)
  }

  ghost function AfterOutput(cfg: L.Config, y: System, capacity: Option<nat>): (z: System)
    requires Valid(cfg, y) && y.sched.pc.Working?
    ensures Valid(cfg, z)
  {
    var z := AfterCall(cfg, y, L.Op.Output(capacity));
    var reply := NpuCall(cfg, y.npu, L.Op.Output(capacity)).1;
    if reply.Data? then z.(leg := Handed, result := y.result[y.sched.pc.j := reply.bytes]) else z.(leg := Failing)
  }

  ghost function After(cfg: L.Config, y: System, t: Step): (z: System)
    requires Valid(cfg, y) && Can(y, t)
    ensures Valid(cfg, z)
  {
    match t
    case Sched(e) => AfterSched(cfg, y, e)
    case Load(data) => AfterCall(cfg, y, L.Op.Load(data))
    case BeginLayers(input) => AfterBegin(cfg, y, input)
    case Layer => AfterCall(cfg, y, L.Op.Step)
    case TakeOutput(capacity) => AfterOutput(cfg, y, capacity)
  }

  // ---- the invariant ----

  predicate Same(x: L.Session, w: Work) {
    x.blob == w.blob && x.input == w.input
  }

  predicate HoldsWork(s: L.Ideal, k: nat, work: map<nat, Work>, i: nat) {
    i in work && k < |s.slots| && s.slots[k].Some? && Same(s.slots[k].value, work[i])
  }

  // The two tables of suspension slots agree: the same slots are taken, and where a job's
  // context is parked lies a session of that job.
  ghost predicate SlotsCoupled(st: S.State, s: L.Ideal, work: map<nat, Work>) {
    && |st.slots| == |s.slots|
    && (forall k :: 0 <= k < |st.slots| ==> (st.slots[k].Some? <==> s.slots[k].Some?))
    && (forall i :: 0 <= i < |st.jobs| && S.Parks(st, i) && st.jobs[i].ctx.Some? ==>
          HoldsWork(s, st.jobs[i].ctx.value, work, i))
    && (st.pc.Parked? ==> HoldsWork(s, st.pc.slot, work, st.pc.j))
  }

  // While a job drives the live session, the session is its own.
  ghost predicate LegOk(st: S.State, s: L.Ideal, leg: Leg, work: map<nat, Work>, result: map<nat, seq<u8>>) {
    && (leg != Plain ==> st.pc.Restored? || st.pc.Working? || st.pc.Yielding?)
    && (leg == Layers ==> st.pc.j in work && s.live.Running? && Same(s.live.s, work[st.pc.j]))
    && (leg == Handed ==> st.pc.j in result)
    && (st.pc.Restored? || st.pc.Yielding? ==> leg == Layers)
    && (st.pc.Working? && st.pc.j in work ==> leg != Plain)
    && (st.pc.Starting? && st.pc.j < |st.jobs| && !st.jobs[st.pc.j].resuming ==>
          st.pc.j !in work && st.jobs[st.pc.j].ctx.None?)
    && ((st.pc.Working? || st.pc.Yielding? || st.pc.Parked?) && st.pc.j < |st.jobs| ==> st.jobs[st.pc.j].ctx.None?)
  }

  ghost predicate WorkValid(cfg: L.Config, w: Work) {
    L.Plannable(cfg, w.blob) && |w.input| == L.ModelOf(cfg, w.blob).inputSize
  }

  // The output of the reference executor.
  ghost function Answer(cfg: L.Config, w: Work): seq<u8>
    requires WorkValid(cfg, w)
  {
    var m := L.ModelOf(cfg, w.blob);
    L.Reference(m, cfg.actMax, w.input, |m.layers|)[|m.layers|]
  }

  ghost predicate Answered(cfg: L.Config, w: Work, bytes: seq<u8>) {
    WorkValid(cfg, w) && bytes == Answer(cfg, w)
  }

  ghost predicate ResultsOk(cfg: L.Config, st: S.State, work: map<nat, Work>, result: map<nat, seq<u8>>) {
    && (forall i :: i in result ==> i in work && Answered(cfg, work[i], result[i]))
    && (forall i :: 0 <= i < |st.jobs| && st.jobs[i].state == S.Done && i in work ==> i in result)
    && (forall i :: 0 <= i < |st.jobs| && st.jobs[i].state == S.Queued ==> i !in work)
  }

  ghost predicate Inv(cfg: L.Config, y: System) {
    && S.Inv(y.sched) && L.Simulates(cfg, y.npu, y.ideal)
    && SlotsCoupled(y.sched, y.ideal, y.work)
    && LegOk(y.sched, y.ideal, y.leg, y.work, y.result)
    && ResultsOk(cfg, y.sched, y.work, y.result)
  }

  lemma InvValid(cfg: L.Config, y: System)
    requires Inv(cfg, y)
    ensures Valid(cfg, y) && y.npu.resident == y.ideal.resident
  {
  }

  // ---- every step keeps it ----

  lemma SlotsUpdate(st: S.State, after: S.State, s: L.Ideal, s': L.Ideal, work: map<nat, Work>, work': map<nat, Work>,
                    j: nat)
    requires S.SlotsUnshared(st) && SlotsCoupled(st, s, work)
    requires j < |st.jobs| == |after.jobs| && after.jobs == st.jobs[j := after.jobs[j]]
    requires |after.slots| == |st.slots| == |s'.slots|
    requires forall k :: 0 <= k < |st.slots| ==> (after.slots[k].Some? <==> s'.slots[k].Some?)
    requires forall k :: 0 <= k < |st.slots| ==>
               s'.slots[k] == s.slots[k] || st.slots[k].None? || st.slots[k] == Some(j)
    requires forall i :: i != j && i in work ==> i in work' && work'[i] == work[i]
    requires st.pc.Restored? ==> st.pc.j == j || after.pc == st.pc
    requires S.Parks(after, j) && after.jobs[j].ctx.Some? ==> HoldsWork(s', after.jobs[j].ctx.value, work', j)
    requires after.pc.Parked? ==> HoldsWork(s', after.pc.slot, work', after.pc.j)
    ensures SlotsCoupled(after, s', work')
  {
  }

  lemma SlotsSame(st: S.State, after: S.State, s: L.Ideal, s': L.Ideal, work: map<nat, Work>)
    requires SlotsCoupled(st, s, work) && after.jobs == st.jobs && after.slots == st.slots && s'.slots == s.slots
    requires after.pc == st.pc || (!st.pc.Restored? && !after.pc.Parked?)
    ensures SlotsCoupled(after, s', work)
  {
  }

  predicate Quiet(e: S.Event) {
    || e.SubmitGive? || e.Take? || e.Defer? || e.GiveDrain? || e.GiveWake?
    || e.Quiesce? || e.DrainTaken? || e.Release? || e.Replay?
  }

  lemma QuietEvent(st: S.State, e: S.Event)
    requires S.Enabled(st, e) && Quiet(e)
    ensures var after := S.Next(st, e);
            && after.jobs == st.jobs && after.slots == st.slots
            && (after.pc == st.pc || (!S.HasJob(st.pc) && !S.HasJob(after.pc)))
    ensures CallsOf(st, e) == []
  {
    hide S.Give;
  }

  // An event that calls nothing of the executor.
  lemma NoCalls(cfg: L.Config, y: System, e: S.Event)
    requires Inv(cfg, y) && S.Enabled(y.sched, e) && CallsOf(y.sched, e) == []
    ensures var z := AfterSched(cfg, y, e);
            z.npu == y.npu && z.ideal == y.ideal && S.Inv(z.sched) && L.Simulates(cfg, z.npu, z.ideal)
  {
    hide S.Inv, S.Next, S.Enabled, CallsOf, L.Simulates, SlotsCoupled, LegOk, ResultsOk;
    S.StepKeepsInv(y.sched, e);
  }

  lemma LegSame(st: S.State, after: S.State, s: L.Ideal, leg: Leg, work: map<nat, Work>, result: map<nat, seq<u8>>)
    requires LegOk(st, s, leg, work, result) && after.jobs == st.jobs
    requires after.pc == st.pc || (!S.HasJob(st.pc) && !S.HasJob(after.pc))
    ensures LegOk(after, s, leg, work, result)
  {
  }

  lemma ResultsSame(cfg: L.Config, st: S.State, after: S.State, work: map<nat, Work>, result: map<nat, seq<u8>>)
    requires ResultsOk(cfg, st, work, result) && after.jobs == st.jobs
    ensures ResultsOk(cfg, after, work, result)
  {
  }

  // Events that no job takes part in.
  lemma QuietKeeps(cfg: L.Config, y: System, e: S.Event)
    requires Inv(cfg, y) && S.Enabled(y.sched, e) && Quiet(e)
    ensures Inv(cfg, AfterSched(cfg, y, e))
  {
    hide S.Inv, S.Next, S.Enabled, CallsOf, L.Simulates, SlotsCoupled, LegOk, ResultsOk, S.Occupied;
    QuietEvent(y.sched, e);
    NoCalls(cfg, y, e);
    var after := S.Next(y.sched, e);
    SlotsSame(y.sched, after, y.ideal, y.ideal, y.work);
    LegSame(y.sched, after, y.ideal, y.leg, y.work, y.result);
    ResultsSame(cfg, y.sched, after, y.work, y.result);
  }

  lemma InvParts(st: S.State)
    requires S.Inv(st)
    ensures S.Shaped(st) && S.OneRunning(st) && S.SlotsUnshared(st)
  {
  }

  // Entry j changes, and job j is not the running one.
  lemma LegOther(st: S.State, after: S.State, s: L.Ideal, s': L.Ideal, leg: Leg,
                 work: map<nat, Work>, work': map<nat, Work>, result: map<nat, seq<u8>>, result': map<nat, seq<u8>>,
                 j: nat)
    requires LegOk(st, s, leg, work, result) && s'.live == s.live
    requires after.pc == st.pc && (S.HasJob(st.pc) ==> st.pc.j != j)
    requires j < |st.jobs| == |after.jobs| && after.jobs == st.jobs[j := after.jobs[j]]
    requires forall i :: i != j ==> (i in work <==> i in work') && (i in work ==> work'[i] == work[i])
    requires forall i :: i != j ==> (i in result <==> i in result')
    ensures LegOk(after, s', leg, work', result')
  {
  }

  lemma ResultsUpdate(cfg: L.Config, st: S.State, after: S.State, work: map<nat, Work>, work': map<nat, Work>,
                      result: map<nat, seq<u8>>, result': map<nat, seq<u8>>, j: nat)
    requires ResultsOk(cfg, st, work, result)
    requires j < |st.jobs| == |after.jobs| && after.jobs == st.jobs[j := after.jobs[j]]
    requires forall i :: i != j ==> (i in work <==> i in work') && (i in work ==> work'[i] == work[i])
    requires forall i :: i != j ==> (i in result <==> i in result') && (i in result ==> result'[i] == result[i])
    requires j in result' ==> j in work' && Answered(cfg, work'[j], result'[j])
    requires after.jobs[j].state == S.Done && j in work' ==> j in result'
    requires after.jobs[j].state == S.Queued ==> j !in work'
    ensures ResultsOk(cfg, after, work', result')
  {
    hide Answered;
  }

  lemma SubmitKeeps(cfg: L.Config, y: System, e: S.Event)
    requires Inv(cfg, y) && S.Enabled(y.sched, e) && e.Submit?
    ensures Inv(cfg, AfterSched(cfg, y, e))
  {
    assert CallsOf(y.sched, e) == [];
    assert S.Next(y.sched, e) == S.DoSubmit(y.sched, e.pipe, e.priority, e.deadline, e.preemptible);
    assert S.FirstFree(y.sched.jobs, 0).Some?;
    hide S.Inv, S.Next, S.Enabled, CallsOf, L.Simulates, LegOk, ResultsOk, SlotsCoupled, S.FirstFree, S.OneRunning,
         S.SlotsUnshared, S.Shaped, S.DoSubmit;
    NoCalls(cfg, y, e);
    InvParts(y.sched);
    SubmitCoupled(cfg, y, e);
  }

  lemma SubmitCoupled(cfg: L.Config, y: System, e: S.Event)
    requires e.Submit? && S.FirstFree(y.sched.jobs, 0).Some?
    requires S.SlotsUnshared(y.sched) && S.OneRunning(y.sched) && SlotsCoupled(y.sched, y.ideal, y.work)
    requires LegOk(y.sched, y.ideal, y.leg, y.work, y.result) && ResultsOk(cfg, y.sched, y.work, y.result)
    ensures var after := S.DoSubmit(y.sched, e.pipe, e.priority, e.deadline, e.preemptible);
            var i := S.FirstFree(y.sched.jobs, 0).value;
            && SlotsCoupled(after, y.ideal, y.work - {i}) && LegOk(after, y.ideal, y.leg, y.work - {i}, y.result - {i})
            && ResultsOk(cfg, after, y.work - {i}, y.result - {i})
  {
    S.FirstFreeIsFree(y.sched.jobs, 0);
    var i := S.FirstFree(y.sched.jobs, 0).value;
    var after := S.DoSubmit(y.sched, e.pipe, e.priority, e.deadline, e.preemptible);
    hide S.FirstFree, LegOk, ResultsOk;
    SlotsUpdate(y.sched, after, y.ideal, y.ideal, y.work, y.work - {i}, i);
    hide SlotsCoupled;
    LegOther(y.sched, after, y.ideal, y.ideal, y.leg, y.work, y.work - {i}, y.result, y.result - {i}, i);
    ResultsUpdate(cfg, y.sched, after, y.work, y.work - {i}, y.result, y.result - {i}, i);
  }

  lemma ConsumeKeeps(cfg: L.Config, y: System, e: S.Event)
    requires Inv(cfg, y) && S.Enabled(y.sched, e) && e.Consume?
    ensures Inv(cfg, AfterSched(cfg, y, e))
  {
    NoCalls(cfg, y, e);
    InvParts(y.sched);
    var z := AfterSched(cfg, y, e);
    var after, j := z.sched, e.j;
    assert after == y.sched.(jobs := y.sched.jobs[j := y.sched.jobs[j].(state := S.Free)]);
    assert y.sched.jobs[j].state in {S.Done, S.Error, S.Cancelled};
    hide S.Inv, S.Next, S.Enabled, CallsOf, L.Simulates, LegOk, ResultsOk;
    SlotsUpdate(y.sched, after, y.ideal, y.ideal, y.work, y.work, j);
    hide SlotsCoupled;
    LegOther(y.sched, after, y.ideal, y.ideal, y.leg, y.work, y.work, y.result, y.result, j);
    ResultsKept(cfg, y.sched, after, y.work, y.result, j);
  }

  lemma ResultsKept(cfg: L.Config, st: S.State, after: S.State, work: map<nat, Work>, result: map<nat, seq<u8>>, j: nat)
    requires ResultsOk(cfg, st, work, result) && j < |st.jobs| == |after.jobs|
    requires after.jobs == st.jobs[j := after.jobs[j]] && after.jobs[j].state != S.Done &&
             after.jobs[j].state != S.Queued
    ensures ResultsOk(cfg, after, work, result)
  {
    hide Answered;
  }

  // Events of the job in the pipeline that call nothing: what each does to the job table.
  predicate Drives(e: S.Event) {
    e.Begin? || e.SeePreemptor? || e.ClearCtx? || e.Record? || e.Suspend?
  }

  lemma DrivingEvent(st: S.State, e: S.Event)
    requires S.Enabled(st, e) && S.OneRunning(st) && Drives(e)
    ensures var after, j := S.Next(st, e), st.pc.j;
            && S.HasJob(st.pc) && j < |st.jobs| == |after.jobs| && st.jobs[j].state == S.Running
            && after.slots == st.slots && after.jobs == st.jobs[j := after.jobs[j]]
            && after.jobs[j].state == (if e.Suspend? then S.Suspended else S.Running)
            && after.jobs[j].ctx ==
               (if e.ClearCtx? then None else if e.Record? then Some(st.pc.slot) else st.jobs[j].ctx)
    ensures var after, j := S.Next(st, e), st.pc.j;
            match e
            case Begin => st.pc == S.Starting(j) && !st.jobs[j].resuming && after.pc == S.Working(j)
            case SeePreemptor => st.pc == S.Working(j) && after.pc == S.Yielding(j)
            case ClearCtx => st.pc == S.Restored(j) && after.pc == S.Working(j)
            case Record => st.pc.Parked? && after.pc == S.Preempted(j)
            case _ => st.pc == S.Preempted(j) && after.pc.Giving?
    ensures CallsOf(st, e) == []
  {
    hide S.PreemptPending;
  }

  lemma DrivingSlots(st: S.State, after: S.State, s: L.Ideal, work: map<nat, Work>, e: S.Event)
    requires S.Enabled(st, e) && S.OneRunning(st) && Drives(e) && S.SlotsUnshared(st) && SlotsCoupled(st, s, work)
    requires after == S.Next(st, e)
    ensures SlotsCoupled(after, s, work)
  {
    DrivingEvent(st, e);
    hide S.Next, S.Enabled, S.OneRunning;
    SlotsUpdate(st, after, s, s, work, work, st.pc.j);
  }

  lemma DrivingLeg(st: S.State, after: S.State, s: L.Ideal, leg: Leg, work: map<nat, Work>, result: map<nat, seq<u8>>,
                   e: S.Event)
    requires S.Enabled(st, e) && S.OneRunning(st) && Drives(e) && LegOk(st, s, leg, work, result)
    requires after == S.Next(st, e) && (e.SeePreemptor? ==> leg == Layers)
    ensures LegOk(after, s, leg, work, result)
  {
    DrivingEvent(st, e);
    hide S.Next, S.Enabled, S.OneRunning;
  }

  lemma DrivingKeeps(cfg: L.Config, y: System, e: S.Event)
    requires Inv(cfg, y) && Can(y, Sched(e)) && Drives(e)
    ensures Inv(cfg, AfterSched(cfg, y, e))
  {
    hide S.Inv, S.Next, S.Enabled, CallsOf, L.Simulates, LegOk, ResultsOk, SlotsCoupled, S.OneRunning, S.SlotsUnshared,
         S.Occupied;
    InvParts(y.sched);
    DrivingEvent(y.sched, e);
    NoCalls(cfg, y, e);
    var after := S.Next(y.sched, e);
    DrivingSlots(y.sched, after, y.ideal, y.work, e);
    DrivingLeg(y.sched, after, y.ideal, y.leg, y.work, y.result, e);
    ResultsKept(cfg, y.sched, after, y.work, y.result, y.sched.pc.j);
  }

  lemma DispatchKeeps(cfg: L.Config, y: System)
    requires Inv(cfg, y) && S.Enabled(y.sched, S.Dispatch)
    ensures Inv(cfg, AfterSched(cfg, y, S.Dispatch))
  {
    NoCalls(cfg, y, S.Dispatch);
    InvParts(y.sched);
    assert y.sched.pc == S.Woken && S.DistinctSeqs(y.sched.jobs);
    var after := S.Next(y.sched, S.Dispatch);
    var best := S.Pick(y.sched.jobs, |y.sched.jobs|);
    hide S.Inv, S.DistinctSeqs, S.Before, CallsOf, L.Simulates, LegOk, ResultsOk, SlotsCoupled, S.Started,
         S.OneRunning, S.SlotsUnshared;
    S.PickIsBest(y.sched.jobs, |y.sched.jobs|);
    hide S.Pick;
    if best.None? {
      assert after == y.sched.(pc := S.Blocked);
      hide S.Next;
      SlotsSame(y.sched, after, y.ideal, y.ideal, y.work);
      LegSame(y.sched, after, y.ideal, y.leg, y.work, y.result);
      ResultsSame(cfg, y.sched, after, y.work, y.result);
    } else {
      assert after == S.Started(y.sched, best.value);
      hide S.Next;
      StartCoupled(cfg, y, best.value);
    }
  }

  lemma StartCoupled(cfg: L.Config, y: System, j: nat)
    requires y.sched.pc == S.Woken && j < |y.sched.jobs| && S.Runnable(y.sched.jobs[j])
    requires S.SlotsUnshared(y.sched) && SlotsCoupled(y.sched, y.ideal, y.work)
    requires LegOk(y.sched, y.ideal, y.leg, y.work, y.result) && ResultsOk(cfg, y.sched, y.work, y.result)
    ensures var after := S.Started(y.sched, j);
            && SlotsCoupled(after, y.ideal, y.work) && LegOk(after, y.ideal, y.leg, y.work, y.result)
            && ResultsOk(cfg, after, y.work, y.result)
  {
    var after := S.Started(y.sched, j);
    SlotsUpdate(y.sched, after, y.ideal, y.ideal, y.work, y.work, j);
    ResultsKept(cfg, y.sched, after, y.work, y.result, j);
    hide SlotsCoupled, Answered;
  }

  lemma FinishKeeps(cfg: L.Config, y: System, e: S.Event, ok: bool)
    requires Inv(cfg, y) && Can(y, Sched(e)) && (e == S.Finish(ok) || (e.FailEarly? && !ok))
    ensures Inv(cfg, AfterSched(cfg, y, e))
  {
    NoCalls(cfg, y, e);
    InvParts(y.sched);
    var after, j := S.Next(y.sched, e), y.sched.pc.j;
    assert after == S.DoFinish(y.sched, ok);
    assert y.sched.pc.Starting? || y.sched.pc.Working? || (y.sched.pc.Refused? && !ok);
    var z := AfterSched(cfg, y, e);
    assert z.leg == if e.FailEarly? then y.leg else Plain;
    hide S.Inv, S.Next, S.Enabled, CallsOf, AfterSched, L.Simulates, LegOk, ResultsOk;
    SlotsUpdate(y.sched, after, y.ideal, y.ideal, y.work, y.work, j);
    hide SlotsCoupled;
    FinishedLeg(y, after, z.leg, j, e);
    FinishedResults(cfg, y, after, j, ok);
  }

  lemma FinishedLeg(y: System, after: S.State, leg: Leg, j: nat, e: S.Event)
    requires LegOk(y.sched, y.ideal, y.leg, y.work, y.result) && after.pc.Giving?
    requires leg == if e.FailEarly? then y.leg else Plain
    requires e.FailEarly? ==> y.sched.pc.Starting?
    ensures LegOk(after, y.ideal, leg, y.work, y.result)
  {
  }

  lemma FinishedResults(cfg: L.Config, y: System, after: S.State, j: nat, ok: bool)
    requires ResultsOk(cfg, y.sched, y.work, y.result) && LegOk(y.sched, y.ideal, y.leg, y.work, y.result)
    requires j < |y.sched.jobs| == |after.jobs| && after.jobs == y.sched.jobs[j := after.jobs[j]]
    requires after.jobs[j].state == if ok then S.Done else S.Error
    requires ok ==> y.sched.pc == S.Working(j) && (y.leg == Plain || y.leg == Handed)
    ensures ResultsOk(cfg, after, y.work, y.result)
  {
    hide Answered;
  }

  // ---- events that call the executor ----

  lemma OneCall(cfg: L.Config, c: L.Npu, s: L.Ideal, op: L.Op)
    requires L.Simulates(cfg, c, s) && (L.SessionOp(op) ==> !s.live.Broken?)
    ensures L.NpuValid(cfg, c) && L.IdealValid(cfg, s)
    ensures NpuCalls(cfg, c, [op]) == NpuCall(cfg, c, op).0 && IdealCalls(cfg, s, [op]) == IdealCall(cfg, s, op).0
    ensures L.Simulates(cfg, NpuCalls(cfg, c, [op]), IdealCalls(cfg, s, [op]))
  {
    SimulatesValid(cfg, c, s);
    hide L.Simulates, L.NpuValid, L.IdealValid, NpuCall, IdealCall;
    assert [op][..0] == [];
    CallsAgree(cfg, c, s, op);
  }

  lemma SimulatesValid(cfg: L.Config, c: L.Npu, s: L.Ideal)
    requires L.Simulates(cfg, c, s)
    ensures L.NpuValid(cfg, c) && L.IdealValid(cfg, s) && c.resident == s.resident && |s.slots| == L.CTX_SLOTS
  {
  }

  lemma {:induction false} CallsSimulate(cfg: L.Config, c: L.Npu, s: L.Ideal, ops: seq<L.Op>)
    requires L.Simulates(cfg, c, s) && forall k :: 0 <= k < |ops| ==> !L.SessionOp(ops[k])
    ensures L.NpuValid(cfg, c) && L.IdealValid(cfg, s)
    ensures L.Simulates(cfg, NpuCalls(cfg, c, ops), IdealCalls(cfg, s, ops))
    decreases |ops|
  {
    SimulatesValid(cfg, c, s);
    hide L.Simulates, L.NpuValid, L.IdealValid, NpuCall, IdealCall, L.SessionOp;
    if ops != [] {
      var rest := ops[..|ops| - 1];
      CallsSimulate(cfg, c, s, rest);
      CallsAgree(cfg, NpuCalls(cfg, c, rest), IdealCalls(cfg, s, rest), ops[|ops| - 1]);
    }
  }

  // The scheduler and the executor find the same free slot.
  lemma {:induction false} FirstsAgree<T>(a: seq<Option<nat>>, b: seq<Option<T>>, from: nat)
    requires |a| == |b| && from <= |a| && forall k :: 0 <= k < |a| ==> (a[k].Some? <==> b[k].Some?)
    ensures S.FirstSlot(a, from) == if L.FirstEmpty(b, from) == |b| then None else Some(L.FirstEmpty(b, from))
    decreases |a| - from
  {
    if from < |a| && a[from].Some? {
      FirstsAgree(a, b, from + 1);
    }
  }

  // A session call of the executor on the session of work w.
  lemma SaveCall(cfg: L.Config, s: L.Ideal)
    requires L.IdealValid(cfg, s) && s.live.Running?
    ensures var k := L.FirstEmpty(s.slots, 0);
            IdealCall(cfg, s, L.Op.Save).0 ==
            if k == L.CTX_SLOTS then s else s.(slots := s.slots[k := Some(s.live.s)], live := L.Idle)
  {
    hide L.FirstEmpty;
  }

  lemma RestoreCall(cfg: L.Config, s: L.Ideal, ctx: Option<nat>)
    requires L.IdealValid(cfg, s)
    ensures IdealCall(cfg, s, L.Op.Restore(SlotArg(ctx))).0 ==
            if ctx.Some? && ctx.value < |s.slots| && s.slots[ctx.value].Some?
            then s.(live := L.Running(s.slots[ctx.value].value), slots := s.slots[ctx.value := None]) else s
  {
  }

  lemma FreeCall(cfg: L.Config, s: L.Ideal, ctx: Option<nat>)
    requires L.IdealValid(cfg, s)
    ensures var r := IdealCall(cfg, s, L.Op.SlotFree(SlotArg(ctx))).0;
            r == if ctx.Some? && ctx.value < |s.slots| then s.(slots := s.slots[ctx.value := None]) else s
  {
  }

  lemma ParkKeeps(cfg: L.Config, y: System)
    requires Inv(cfg, y) && S.Enabled(y.sched, S.Park)
    ensures Inv(cfg, AfterSched(cfg, y, S.Park))
  {
    var st, s, j := y.sched, y.ideal, y.sched.pc.j;
    hide S.Inv, L.Simulates, L.IdealValid, L.NpuValid, ResultsOk, S.FirstSlot, S.SlotsUnshared;
    InvParts(st);
    S.StepKeepsInv(st, S.Park);
    SimulatesValid(cfg, y.npu, s);
    assert y.leg == Layers && s.live.Running? && st.pc == S.Yielding(j) && st.jobs[j].ctx.None? &&
           Same(s.live.s, y.work[j]);
    assert S.Next(st, S.Park) == S.DoPark(st) && CallsOf(st, S.Park) == [L.Op.Save];
    hide S.Next, S.Enabled, CallsOf, IdealCall, NpuCall, NpuCalls, IdealCalls, LegOk, L.FirstEmpty, S.DoPark;
    OneCall(cfg, y.npu, s, L.Op.Save);
    SaveCall(cfg, s);
    FirstsAgree(st.slots, s.slots, 0);
    S.FirstSlotIsFree(st.slots, 0);
    ParkCoupled(st, s, y.work, y.result, j);
    hide SlotsCoupled;
    ParkedJobs(st);
    ResultsSame(cfg, st, S.DoPark(st), y.work, y.result);
  }

  lemma ParkedJobs(st: S.State)
    requires S.HasJob(st.pc) && st.pc.j < |st.jobs|
    ensures S.DoPark(st).jobs == st.jobs
  {
    hide S.FirstSlot;
  }

  lemma ParkCoupled(st: S.State, s: L.Ideal, work: map<nat, Work>, result: map<nat, seq<u8>>, j: nat)
    requires S.SlotsUnshared(st) && SlotsCoupled(st, s, work) && LegOk(st, s, Layers, work, result)
    requires st.pc == S.Yielding(j) && j < |st.jobs| && s.live.Running?
    ensures var after, k := S.DoPark(st), S.FirstSlot(st.slots, 0);
            if k.Some? then
              && k.value < |st.slots|
              && var s' := s.(slots := s.slots[k.value := Some(s.live.s)], live := L.Idle);
                 SlotsCoupled(after, s', work) && LegOk(after, s', Plain, work, result)
            else SlotsCoupled(after, s, work) && LegOk(after, s, Layers, work, result)
  {
    var after, k := S.DoPark(st), S.FirstSlot(st.slots, 0);
    S.FirstSlotIsFree(st.slots, 0);
    hide S.FirstSlot;
    if k.Some? {
      SlotsUpdate(st, after, s, s.(slots := s.slots[k.value := Some(s.live.s)], live := L.Idle), work, work, j);
    } else {
      SlotsSame(st, after, s, s, work);
    }
    hide SlotsCoupled;
  }

  lemma RestoreKeeps(cfg: L.Config, y: System)
    requires Inv(cfg, y) && S.Enabled(y.sched, S.Restore)
    ensures Inv(cfg, AfterSched(cfg, y, S.Restore))
  {
    var st, s, j := y.sched, y.ideal, y.sched.pc.j;
    hide S.Inv, L.Simulates, L.IdealValid, L.NpuValid, ResultsOk, SlotsCoupled, S.SlotsUnshared;
    InvParts(st);
    S.StepKeepsInv(st, S.Restore);
    SimulatesValid(cfg, y.npu, s);
    assert st.pc == S.Starting(j) && j < |st.jobs| && st.jobs[j].state == S.Running && y.leg == Plain;
    assert S.Next(st, S.Restore) == S.DoRestore(st);
    assert CallsOf(st, S.Restore) == [L.Op.Restore(SlotArg(st.jobs[j].ctx))];
    hide S.Next, S.Enabled, CallsOf, S.OneRunning, IdealCall, NpuCall, NpuCalls, IdealCalls, LegOk;
    OneCall(cfg, y.npu, s, L.Op.Restore(SlotArg(st.jobs[j].ctx)));
    RestoreCall(cfg, s, st.jobs[j].ctx);
    RestoreCoupled(st, s, y.work, y.result, j);
    ResultsKept(cfg, st, S.DoRestore(st), y.work, y.result, j);
    hide S.DoRestore;
  }

  lemma RestoreCoupled(st: S.State, s: L.Ideal, work: map<nat, Work>, result: map<nat, seq<u8>>, j: nat)
    requires S.SlotsUnshared(st) && SlotsCoupled(st, s, work) && LegOk(st, s, Plain, work, result)
    requires st.pc == S.Starting(j) && j < |st.jobs| && st.jobs[j].state == S.Running
    ensures var after, ctx := S.DoRestore(st), st.jobs[j].ctx;
            if S.Occupied(st.slots, ctx) then
              && ctx.value < |s.slots| && s.slots[ctx.value].Some?
              && var s' := s.(live := L.Running(s.slots[ctx.value].value), slots := s.slots[ctx.value := None]);
                 SlotsCoupled(after, s', work) && LegOk(after, s', Layers, work, result)
            else
              && !(ctx.Some? && ctx.value < |s.slots| && s.slots[ctx.value].Some?)
              && SlotsCoupled(after, s, work) && LegOk(after, s, Plain, work, result)
  {
    var after, ctx := S.DoRestore(st), st.jobs[j].ctx;
    if S.Occupied(st.slots, ctx) {
      assert HoldsWork(s, ctx.value, work, j);
      SlotsUpdate(st, after, s, s.(live := L.Running(s.slots[ctx.value].value), slots := s.slots[ctx.value := None]),
                  work, work, j);
    } else {
      SlotsUpdate(st, after, s, s, work, work, j);
    }
    hide SlotsCoupled;
  }

  // A waiting job gives up its context; it is cancelled, or loses its slot.
  lemma FreeCoupled(st: S.State, after: S.State, s: L.Ideal, s': L.Ideal, leg: Leg, work: map<nat, Work>,
                    result: map<nat, seq<u8>>, j: nat)
    requires S.SlotsUnshared(st) && S.OneRunning(st) && SlotsCoupled(st, s, work) && LegOk(st, s, leg, work, result)
    requires j < |st.jobs| && S.Runnable(st.jobs[j])
    requires after.pc == st.pc && |after.jobs| == |st.jobs| && after.jobs == st.jobs[j := after.jobs[j]]
    requires var ctx := st.jobs[j].ctx;
             if st.jobs[j].state == S.Suspended then
               && after.jobs[j].ctx.None? && after.slots == S.SlotFreed(st.slots, ctx)
               && s' == if ctx.Some? && ctx.value < |s.slots| then s.(slots := s.slots[ctx.value := None]) else s
             else after.jobs[j].ctx == ctx && after.slots == st.slots && s' == s
    ensures SlotsCoupled(after, s', work) && LegOk(after, s', leg, work, result)
  {
    SlotsUpdate(st, after, s, s', work, work, j);
    hide SlotsCoupled;
    LegOther(st, after, s, s', leg, work, work, result, result, j);
  }

  lemma CancelKeeps(cfg: L.Config, y: System, e: S.Event)
    requires Inv(cfg, y) && S.Enabled(y.sched, e) && e.Cancel?
    ensures Inv(cfg, AfterSched(cfg, y, e))
  {
    var st, s, j := y.sched, y.ideal, e.j;
    InvParts(st);
    S.StepKeepsInv(st, e);
    SimulatesValid(cfg, y.npu, s);
    var after := S.Cancelled1(st, j);
    assert S.Next(st, e) == after && j < |st.jobs| && S.Runnable(st.jobs[j]);
    var calls := CallsOf(st, e);
    assert calls == if st.jobs[j].state == S.Suspended then [L.Op.SlotFree(SlotArg(st.jobs[j].ctx))] else [];
    hide S.Inv, S.Next, S.Enabled, CallsOf, L.Simulates, L.IdealValid, L.NpuValid, S.OneRunning, S.SlotsUnshared,
         SlotsCoupled, LegOk, ResultsOk;
    if st.jobs[j].state == S.Suspended {
      OneCall(cfg, y.npu, s, calls[0]);
      FreeCall(cfg, s, st.jobs[j].ctx);
    }
    hide IdealCall, NpuCall;
    var z := AfterSched(cfg, y, e);
    assert z.sched == after && z.leg == y.leg && z.work == y.work && z.result == y.result;
    FreeCoupled(st, after, s, z.ideal, y.leg, y.work, y.result, j);
    ResultsKept(cfg, st, after, y.work, y.result, j);
  }

  // ---- destroying a pipeline ----

  // What holds after n rounds of the loop.
  ghost predicate RoundOk(cfg: L.Config, y: System, st: S.State, s: L.Ideal) {
    && SlotsCoupled(st, s, y.work) && LegOk(st, s, y.leg, y.work, y.result) && ResultsOk(cfg, st, y.work, y.result)
  }

  // What one round does to the executor.
  ghost function RoundCall(cfg: L.Config, s: L.Ideal, job: S.Job): L.Ideal
    requires L.IdealValid(cfg, s)
  {
    if job.state == S.Suspended then IdealCall(cfg, s, L.Op.SlotFree(SlotArg(job.ctx))).0 else s
  }

  lemma RoundKeeps(cfg: L.Config, y: System, st: S.State, s: L.Ideal, pipe: nat, j: nat)
    requires RoundOk(cfg, y, st, s) && S.SlotsUnshared(st) && S.OneRunning(st) && j < |st.jobs| && L.IdealValid(cfg, s)
    ensures RoundOk(cfg, y, S.DestroyOne(st, pipe, j), RoundCall(cfg, s, st.jobs[j]))
  {
    FreeCall(cfg, s, st.jobs[j].ctx);
    hide IdealCall, L.IdealValid, S.OneRunning, S.SlotsUnshared, SlotsCoupled, LegOk, ResultsOk;
    var after := S.DestroyOne(st, pipe, j);
    var s' := RoundCall(cfg, s, st.jobs[j]);
    if after != st || st.jobs[j].state == S.Suspended {
      FreeCoupled(st, after, s, s', y.leg, y.work, y.result, j);
      ResultsKept(cfg, st, after, y.work, y.result, j);
    }
  }

  lemma {:induction false} DestroyRounds(cfg: L.Config, y: System, pipe: nat, n: nat)
    requires Inv(cfg, y) && n <= |y.sched.jobs| && L.IdealValid(cfg, y.ideal)
    ensures RoundOk(cfg, y, S.DestroyFirst(y.sched, pipe, n), IdealCalls(cfg, y.ideal, Frees(y.sched.jobs, n)))
  {
    hide S.Inv, L.Simulates, L.IdealValid, SlotsCoupled, LegOk, ResultsOk, S.DestroyOne, IdealCall;
    if n > 0 {
      var mid := S.DestroyFirst(y.sched, pipe, n - 1);
      var ops := Frees(y.sched.jobs, n - 1);
      var s := IdealCalls(cfg, y.ideal, ops);
      DestroyRounds(cfg, y, pipe, n - 1);
      S.DestroyKeeps(y.sched, pipe, n - 1);
      InvParts(mid);
      S.DestroyedJob(y.sched, pipe, n - 1, n - 1);
      assert mid.jobs[n - 1] == y.sched.jobs[n - 1];
      assert S.DestroyFirst(y.sched, pipe, n) == S.DestroyOne(mid, pipe, n - 1);
      RoundOp(cfg, y.sched.jobs, y.ideal, n);
      hide *;
      RoundKeeps(cfg, y, mid, s, pipe, n - 1);
    }
  }

  // The call that round n adds, if any.
  lemma RoundOp(cfg: L.Config, jobs: seq<S.Job>, s: L.Ideal, n: nat)
    requires 0 < n <= |jobs| && L.IdealValid(cfg, s)
    ensures IdealCalls(cfg, s, Frees(jobs, n)) ==
            RoundCall(cfg, IdealCalls(cfg, s, Frees(jobs, n - 1)), jobs[n - 1])
  {
    hide L.IdealValid, IdealCall;
    var ops, op := Frees(jobs, n - 1), L.Op.SlotFree(SlotArg(jobs[n - 1].ctx));
    assert (ops + [op])[..|ops + [op]| - 1] == ops;
    assert ops + [] == ops;
  }

  lemma {:induction false} FreesOnly(jobs: seq<S.Job>, n: nat)
    requires n <= |jobs|
    ensures forall k :: 0 <= k < |Frees(jobs, n)| ==> !L.SessionOp(Frees(jobs, n)[k])
  {
    if n > 0 {
      FreesOnly(jobs, n - 1);
    }
  }

  lemma DestroyKeeps(cfg: L.Config, y: System, e: S.Event)
    requires Inv(cfg, y) && S.Enabled(y.sched, e) && e.Destroy?
    ensures Inv(cfg, AfterSched(cfg, y, e))
  {
    var st, n := y.sched, |y.sched.jobs|;
    S.StepKeepsInv(st, e);
    SimulatesValid(cfg, y.npu, y.ideal);
    assert S.Next(st, e) == S.DestroyFirst(st, e.pipe, n) && CallsOf(st, e) == Frees(st.jobs, n);
    hide S.Inv, S.Next, S.Enabled, CallsOf, L.Simulates, L.IdealValid, L.NpuValid, SlotsCoupled, LegOk, ResultsOk,
         S.DestroyFirst, Frees, IdealCalls, NpuCalls;
    FreesOnly(st.jobs, n);
    CallsSimulate(cfg, y.npu, y.ideal, Frees(st.jobs, n));
    DestroyRounds(cfg, y, e.pipe, n);
  }

  // ---- calls of the running job and of residency changers ----

  // A call that leaves the slots alone, made for no session or on the job's own.
  lemma CallKeeps(cfg: L.Config, y: System, op: L.Op)
    requires Inv(cfg, y) && Valid(cfg, y) && (L.SessionOp(op) ==> y.leg == Layers)
    requires IdealCall(cfg, y.ideal, op).0.slots == y.ideal.slots
    requires var after := IdealCall(cfg, y.ideal, op).0;
             y.leg == Layers && y.ideal.live.Running? ==>
               && after.live.Running?
               && after.live.s.blob == y.ideal.live.s.blob && after.live.s.input == y.ideal.live.s.input
    ensures Inv(cfg, AfterCall(cfg, y, op))
  {
    hide S.Inv, L.Simulates, L.NpuValid, L.IdealValid, ResultsOk, SlotsCoupled, NpuCall, IdealCall;
    CallsAgree(cfg, y.npu, y.ideal, op);
    SlotsSame(y.sched, y.sched, y.ideal, AfterCall(cfg, y, op).ideal, y.work);
  }

  lemma LoadKeeps(cfg: L.Config, y: System, data: Option<seq<u8>>)
    requires Inv(cfg, y) && Valid(cfg, y)
    ensures Inv(cfg, AfterCall(cfg, y, L.Op.Load(data)))
  {
    hide Inv, L.NpuValid, L.IdealValid;
    LoadCall(cfg, y.ideal, data);
    hide IdealCall;
    CallKeeps(cfg, y, L.Op.Load(data));
  }

  lemma LoadCall(cfg: L.Config, s: L.Ideal, data: Option<seq<u8>>)
    requires L.IdealValid(cfg, s)
    ensures var r := IdealCall(cfg, s, L.Op.Load(data)).0; r.slots == s.slots && r.live == s.live
  {
    hide L.IdealValid;
  }

  lemma LayerKeeps(cfg: L.Config, y: System)
    requires Inv(cfg, y) && Valid(cfg, y) && y.leg == Layers
    ensures Inv(cfg, AfterCall(cfg, y, L.Op.Step))
  {
    hide Inv, L.NpuValid, L.IdealValid;
    StepCall(cfg, y.ideal);
    hide IdealCall;
    CallKeeps(cfg, y, L.Op.Step);
  }

  lemma StepCall(cfg: L.Config, s: L.Ideal)
    requires L.IdealValid(cfg, s)
    ensures var r := IdealCall(cfg, s, L.Op.Step).0;
            && r.slots == s.slots
            && (s.live.Running? ==>
                  r.live.Running? && r.live.s.blob == s.live.s.blob && r.live.s.input == s.live.s.input)
  {
    hide L.ModelOf, L.Plannable;
  }

  // The three outcomes of begin.
  lemma BeginCall(cfg: L.Config, c: L.Npu, s: L.Ideal, input: Option<seq<u8>>)
    requires L.Simulates(cfg, c, s)
    ensures L.NpuValid(cfg, c) && L.IdealValid(cfg, s)
    ensures var reply, s' := NpuCall(cfg, c, L.Op.Begin(input)).1, IdealCall(cfg, s, L.Op.Begin(input)).0;
            && s'.slots == s.slots
            && (reply.Count? && reply.n > 0 ==>
                  c.resident.Some? && input.Some? && WorkValid(cfg, Work(c.resident.value, input.value)) &&
                  s'.live == L.Running(L.Session(c.resident.value, input.value, 0)))
  {
    SimulatesValid(cfg, c, s);
    hide L.Simulates;
  }

  // Begin of a layered model makes the session and the work of job j the same.
  lemma BegunCoupled(cfg: L.Config, st: S.State, s: L.Ideal, s': L.Ideal, leg: Leg, work: map<nat, Work>,
                     result: map<nat, seq<u8>>, j: nat, w: Work)
    requires SlotsCoupled(st, s, work) && LegOk(st, s, leg, work, result) && ResultsOk(cfg, st, work, result)
    requires st.pc == S.Working(j) && j < |st.jobs| && st.jobs[j].state == S.Running
    requires s'.slots == s.slots && s'.live.Running? && Same(s'.live.s, w)
    ensures var work', result' := work[j := w], result - {j};
            SlotsCoupled(st, s', work') && LegOk(st, s', Layers, work', result') && ResultsOk(cfg, st, work', result')
  {
    var work', result' := work[j := w], result - {j};
    hide LegOk, SlotsCoupled, ResultsOk;
    BegunLeg(st, s, s', leg, work, result, j, w);
    BegunSlots(st, s, s', work, work', j);
    BegunResults(cfg, st, work, result, j, w);
  }

  lemma BegunResults(cfg: L.Config, st: S.State, work: map<nat, Work>, result: map<nat, seq<u8>>, j: nat, w: Work)
    requires ResultsOk(cfg, st, work, result) && j < |st.jobs| && st.jobs[j].state == S.Running
    ensures ResultsOk(cfg, st, work[j := w], result - {j})
  {
    hide Answered;
  }

  lemma BegunLeg(st: S.State, s: L.Ideal, s': L.Ideal, leg: Leg, work: map<nat, Work>, result: map<nat, seq<u8>>,
                 j: nat, w: Work)
    requires LegOk(st, s, leg, work, result) && st.pc == S.Working(j) && j < |st.jobs| && s'.live.Running?
    requires Same(s'.live.s, w)
    ensures LegOk(st, s', Layers, work[j := w], result - {j}) && st.jobs[j].ctx.None?
  {
  }

  lemma BegunSlots(st: S.State, s: L.Ideal, s': L.Ideal, work: map<nat, Work>, work': map<nat, Work>, j: nat)
    requires SlotsCoupled(st, s, work) && j < |st.jobs| && st.jobs[j].ctx.None? && st.pc == S.Working(j)
    requires s'.slots == s.slots
    requires forall i :: i != j && i in work ==> i in work' && work'[i] == work[i]
    ensures SlotsCoupled(st, s', work')
  {
  }

  lemma BeginKeeps(cfg: L.Config, y: System, input: Option<seq<u8>>)
    requires Inv(cfg, y) && Valid(cfg, y) && Can(y, BeginLayers(input))
    ensures Inv(cfg, AfterBegin(cfg, y, input))
  {
    InvParts(y.sched);
    assert y.sched.pc.j < |y.sched.jobs| && y.sched.jobs[y.sched.pc.j].state == S.Running;
    hide S.Inv, L.Simulates, L.NpuValid, L.IdealValid, SlotsCoupled, LegOk, ResultsOk, NpuCall, IdealCall, WorkValid,
         S.OneRunning, S.SlotsUnshared;
    CallsAgree(cfg, y.npu, y.ideal, L.Op.Begin(input));
    BeginCall(cfg, y.npu, y.ideal, input);
    var z := AfterBegin(cfg, y, input);
    var s' := IdealCall(cfg, y.ideal, L.Op.Begin(input)).0;
    if z.leg == Layers {
      BegunCoupled(cfg, y.sched, y.ideal, s', y.leg, y.work, y.result, y.sched.pc.j,
                   Work(y.npu.resident.value, input.value));
    } else {
      SlotsSame(y.sched, y.sched, y.ideal, s', y.work);
      LegElsewhere(y.sched, y.ideal, s', y.leg, z.leg, y.work, y.result);
    }
  }

  // The live session matters to a job in layers only.
  lemma LegElsewhere(st: S.State, s: L.Ideal, s': L.Ideal, leg: Leg, leg': Leg,
                     work: map<nat, Work>, result: map<nat, seq<u8>>)
    requires LegOk(st, s, leg, work, result) && st.pc.Working?
    requires leg' == Failing || (leg' == leg && leg != Layers)
    ensures LegOk(st, s', leg', work, result)
  {
  }

  // Output of the live session is the reference output of its work.
  lemma IdealOutputCall(cfg: L.Config, s: L.Ideal, capacity: Option<nat>, w: Work)
    requires L.IdealValid(cfg, s) && s.live.Running? && Same(s.live.s, w)
    ensures var r := IdealCall(cfg, s, L.Op.Output(capacity));
            r.0.slots == s.slots && (r.1.Data? ==> Answered(cfg, w, r.1.bytes))
  {
    hide L.Plannable, L.ModelOf, L.Reference;
  }

  lemma OutputCall(cfg: L.Config, c: L.Npu, s: L.Ideal, capacity: Option<nat>, w: Work)
    requires L.Simulates(cfg, c, s) && s.live.Running? && Same(s.live.s, w)
    ensures L.NpuValid(cfg, c) && L.IdealValid(cfg, s)
    ensures var reply, s' := NpuCall(cfg, c, L.Op.Output(capacity)).1, IdealCall(cfg, s, L.Op.Output(capacity)).0;
            s'.slots == s.slots && (reply.Data? ==> Answered(cfg, w, reply.bytes))
  {
    SimulatesValid(cfg, c, s);
    hide L.Simulates, NpuCall, IdealCall, Answered, L.IdealValid, L.NpuValid;
    CallsAgree(cfg, c, s, L.Op.Output(capacity));
    IdealOutputCall(cfg, s, capacity, w);
  }

  lemma HandedCoupled(cfg: L.Config, st: S.State, s: L.Ideal, s': L.Ideal, work: map<nat, Work>,
                      result: map<nat, seq<u8>>, j: nat, bytes: seq<u8>)
    requires LegOk(st, s, Layers, work, result) && ResultsOk(cfg, st, work, result)
    requires st.pc == S.Working(j) && j < |st.jobs| && j in work && Answered(cfg, work[j], bytes)
    requires st.jobs[j].state == S.Running
    ensures LegOk(st, s', Handed, work, result[j := bytes]) && ResultsOk(cfg, st, work, result[j := bytes])
  {
    hide Answered;
  }

  lemma OutputKeeps(cfg: L.Config, y: System, capacity: Option<nat>)
    requires Inv(cfg, y) && Valid(cfg, y) && Can(y, TakeOutput(capacity))
    ensures Inv(cfg, AfterOutput(cfg, y, capacity))
  {
    var j := y.sched.pc.j;
    InvParts(y.sched);
    assert j < |y.sched.jobs| && y.sched.jobs[j].state == S.Running && y.ideal.live.Running? && j in y.work &&
           Same(y.ideal.live.s, y.work[j]);
    hide S.Inv, L.Simulates, L.NpuValid, L.IdealValid, SlotsCoupled, LegOk, ResultsOk, NpuCall, IdealCall, Answered,
         S.OneRunning, S.SlotsUnshared;
    CallsAgree(cfg, y.npu, y.ideal, L.Op.Output(capacity));
    OutputCall(cfg, y.npu, y.ideal, capacity, y.work[j]);
    var z := AfterOutput(cfg, y, capacity);
    SlotsSame(y.sched, y.sched, y.ideal, z.ideal, y.work);
    var reply := NpuCall(cfg, y.npu, L.Op.Output(capacity)).1;
    if reply.Data? {
      HandedCoupled(cfg, y.sched, y.ideal, z.ideal, y.work, y.result, j, reply.bytes);
    } else {
      LegElsewhere(y.sched, y.ideal, z.ideal, y.leg, Failing, y.work, y.result);
    }
  }

  lemma SchedKeeps(cfg: L.Config, y: System, e: S.Event)
    requires Inv(cfg, y) && Can(y, Sched(e))
    ensures Valid(cfg, y) && Inv(cfg, AfterSched(cfg, y, e))
  {
    SimulatesValid(cfg, y.npu, y.ideal);
    hide Inv, S.Enabled, L.NpuValid, L.IdealValid, AfterSched;
    match e
    case Submit(_, _, _, _) => SubmitKeeps(cfg, y, e);
    case Cancel(_) => CancelKeeps(cfg, y, e);
    case Consume(_) => ConsumeKeeps(cfg, y, e);
    case Destroy(_) => DestroyKeeps(cfg, y, e);
    case Dispatch => DispatchKeeps(cfg, y);
    case Park => ParkKeeps(cfg, y);
    case Restore => RestoreKeeps(cfg, y);
    case FailEarly => FinishKeeps(cfg, y, e, false);
    case Finish(ok) => FinishKeeps(cfg, y, e, ok);
    case Begin => DrivingKeeps(cfg, y, e);
    case SeePreemptor => DrivingKeeps(cfg, y, e);
    case ClearCtx => DrivingKeeps(cfg, y, e);
    case Record => DrivingKeeps(cfg, y, e);
    case Suspend => DrivingKeeps(cfg, y, e);
    case _ => QuietKeeps(cfg, y, e);
  }

  lemma StepKeeps(cfg: L.Config, y: System, t: Step)
    requires Inv(cfg, y) && Can(y, t)
    ensures Valid(cfg, y) && Inv(cfg, After(cfg, y, t))
  {
    InvValid(cfg, y);
    hide Inv, Valid, Can;
    match t
    case Sched(e) => SchedKeeps(cfg, y, e);
    case Load(data) => LoadKeeps(cfg, y, data);
    case BeginLayers(input) => BeginKeeps(cfg, y, input);
    case Layer => LayerKeeps(cfg, y);
    case TakeOutput(capacity) => OutputKeeps(cfg, y, capacity);
  }

  // ---- runs ----

  ghost predicate Possible(cfg: L.Config, y: System, run: seq<Step>)
    requires Valid(cfg, y)
    decreases |run|
  {
    run == [] || (Can(y, run[0]) && Possible(cfg, After(cfg, y, run[0]), run[1..]))
  }

  ghost function Run(cfg: L.Config, y: System, run: seq<Step>): (z: System)
    requires Valid(cfg, y) && Possible(cfg, y, run)
    ensures Valid(cfg, z)
    decreases |run|
  {
    if run == [] then y else Run(cfg, After(cfg, y, run[0]), run[1..])
  }

  lemma {:induction false} RunKeepsInv(cfg: L.Config, y: System, run: seq<Step>)
    requires Valid(cfg, y) && Inv(cfg, y) && Possible(cfg, y, run)
    ensures Inv(cfg, Run(cfg, y, run))
    decreases |run|
  {
    hide Inv, Valid, Can, After;
    if run != [] {
      StepKeeps(cfg, y, run[0]);
      RunKeepsInv(cfg, After(cfg, y, run[0]), run[1..]);
    }
  }

  // Power-on: an empty job table and whatever bytes the area holds.
  function PowerOn(capacity: nat, area: seq<u8>): System {
    System(S.Initial(capacity), L.Npu(None, L.Idle, area, [None, None]), L.Ideal(None, L.Idle, [None, None]), Plain,
           map[], map[])
  }

  lemma PowerOnInv(cfg: L.Config, capacity: nat, area: seq<u8>)
    requires |area| == cfg.planMax
    ensures Valid(cfg, PowerOn(capacity, area)) && Inv(cfg, PowerOn(capacity, area))
  {
    S.InitialInv(capacity);
    hide S.Inv;
  }

  // Preemption is invisible to jobs: in every run of submissions, cancellations, pipeline
  // and residency changes, each job that completed after running in layers has the
  // output of the reference executor on the blob and the input it began with.
  lemma CompletedJobsHaveReferenceOutput(cfg: L.Config, capacity: nat, area: seq<u8>, run: seq<Step>, i: nat)
    requires |area| == cfg.planMax && Valid(cfg, PowerOn(capacity, area)) && Possible(cfg, PowerOn(capacity, area), run)
    ensures var y := Run(cfg, PowerOn(capacity, area), run);
            && (i < |y.sched.jobs| && y.sched.jobs[i].state == S.Done && i in y.work ==>
                  i in y.result && Answered(cfg, y.work[i], y.result[i]))
            && (i in y.result ==> i in y.work && Answered(cfg, y.work[i], y.result[i]))
  {
    PowerOnInv(cfg, capacity, area);
    hide Possible, Run, PowerOn, Valid, S.Inv, L.Simulates, SlotsCoupled, LegOk, Answered;
    RunKeepsInv(cfg, PowerOn(capacity, area), run);
  }

  // The scheduler keeps the executor's contract by itself: whenever a job is about to
  // drive a session, that session is live and its plan is its own.
  lemma SessionsAreUsable(cfg: L.Config, capacity: nat, area: seq<u8>, run: seq<Step>)
    requires |area| == cfg.planMax && Valid(cfg, PowerOn(capacity, area)) && Possible(cfg, PowerOn(capacity, area), run)
    ensures var y := Run(cfg, PowerOn(capacity, area), run);
            y.leg == Layers ==>
              && S.HasJob(y.sched.pc) && y.sched.pc.j in y.work && y.ideal.live.Running? && y.npu.live.Running?
              && Same(y.ideal.live.s, y.work[y.sched.pc.j]) && y.npu.live.s.blob == y.ideal.live.s.blob
  {
    PowerOnInv(cfg, capacity, area);
    hide Possible, Run, PowerOn, S.Inv, SlotsCoupled, ResultsOk;
    RunKeepsInv(cfg, PowerOn(capacity, area), run);
    var y := Run(cfg, PowerOn(capacity, area), run);
    assert L.LiveAgrees(cfg, y.npu.live, y.npu.area, y.ideal.live);
  }
}
