// Which model the NPU holds: the registry, the single-residency NPU behind it, and the
// scheduler and gate of module InferScheduler that keep its users apart.
//
// The NPU is the software stub; nothing loads it but the registry, and an attached blob
// does not change and is attached with one checksum.
module ModelResidency {
  import opened Errno
  import opened Bytes
  import opened Crc32
  import opened InferScheduler

  // The blobs by address, their checksums, and the model of each pipeline.
  datatype World = World(blob: nat -> seq<u8>, crc: nat -> u32, modelOf: nat -> nat)

  datatype Model = Model(active: bool, loaded: bool, data: Option<nat>, crc: u32)

  // resident is what the registry believes, hal what the NPU was last given.
  datatype Npu = Npu(models: seq<Model>, resident: Option<nat>, hal: Option<nat>)

  datatype Outcome = Outcome(npu: Npu, err: Option<Errno>)

  // ---- loading ----

  // The integrity gate of a load.
  predicate Passes(w: World, m: Model)
    requires m.data.Some?
  {
    m.crc == 0 || Crc(w.blob(m.data.value)) == m.crc
  }

  // model_hal_load; hal is what the NPU answers when it is asked.
  function HalLoaded(w: World, npu: Npu, i: nat, hal: Option<Errno>): Outcome
    requires i < |npu.models|
  {
    var m := npu.models[i];
    if m.data.None? then Outcome(npu, None)
    else if !Passes(w, m) then Outcome(npu, Some(EILSEQ))
    else if hal.Some? then Outcome(npu, hal)
    else Outcome(npu.(resident := m.data, hal := m.data), None)
  }

  // model_do_load
  function DidLoad(w: World, npu: Npu, i: nat, hal: Option<Errno>): Outcome
    requires i < |npu.models|
  {
    var r := HalLoaded(w, npu, i, hal);
    if r.err.Some? then r
    else Outcome(r.npu.(models := npu.models[i := npu.models[i].(loaded := true)]), None)
  }

  // syn_model_ensure_resident
  function Ensured(w: World, npu: Npu, i: nat, hal: Option<Errno>): Outcome {
    if i >= |npu.models| || !npu.models[i].active then Outcome(npu, Some(EINVAL))
    else if !npu.models[i].loaded then Outcome(npu, Some(ENOEXEC))
    else if npu.models[i].data.None? || npu.models[i].data == npu.resident then Outcome(npu, None)
    else HalLoaded(w, npu, i, hal)
  }

  function Unloaded(npu: Npu, i: nat): Npu
    requires i < |npu.models|
  {
    npu.(models := npu.models[i := npu.models[i].(loaded := false)])
  }

  // ---- the machine ----

  // serving is the blob of the model the running job was started on, None when the job
  // resumed from a parked context or its model has no data attached.
  datatype System = System(sched: State, npu: Npu, serving: Option<nat>)

  datatype Step =
    | Sched(e: Event)                       // any step but a start, an early failure included
    | Start(hal: Option<Errno>)             // the residency check of a fresh job
    | Load(i: nat, hal: Option<Errno>)      // by the gate holder
    | Drop                                  // by the gate holder
    | ClearLoaded(i: nat)
    | Attach(i: nat, data: Option<nat>)     // registering a model, with or without data
    | Unregister(i: nat)

  predicate Can(s: System, t: Step) {
    match t
    case Sched(e) => e != Begin && Enabled(s.sched, e)
    case Start(_) => Enabled(s.sched, Begin)
    case Load(i, _) => s.sched.changer == Inside && i < |s.npu.models|
    case Drop => s.sched.changer == Inside
    case ClearLoaded(i) => i < |s.npu.models|
    case Attach(i, _) => i < |s.npu.models| && !s.npu.models[i].loaded
    case Unregister(i) => i < |s.npu.models|
  }

  // A job that ends or is suspended serves no blob any more.
  function StillServing(sched: State, serving: Option<nat>): Option<nat> {
    if HasJob(sched.pc) then serving else None
  }

  function Started(w: World, s: System, hal: Option<Errno>): System
    requires Enabled(s.sched, Begin)
  {
    var i := w.modelOf(s.sched.jobs[s.sched.pc.j].pipe);
    var r := Ensured(w, s.npu, i, hal);
    if r.err.None? then
      System(InferScheduler.Next(s.sched, Begin), r.npu, if i < |r.npu.models| then r.npu.models[i].data else None)
    else System(InferScheduler.Next(s.sched, FailEarly), r.npu, None)
  }

  function After(w: World, s: System, t: Step): System
    requires Can(s, t)
  {
    match t
    case Sched(e) =>
      var n := InferScheduler.Next(s.sched, e);
      System(n, s.npu, StillServing(n, s.serving))
    case Start(hal) => Started(w, s, hal)
    case Load(i, hal) => s.(npu := DidLoad(w, s.npu, i, hal).npu)
    case Drop => s.(npu := s.npu.(resident := None, hal := None))
    case ClearLoaded(i) => s.(npu := Unloaded(s.npu, i))
    case Attach(i, data) =>
      var m := Model(true, false, data, if data.Some? then w.crc(data.value) else 0);
      s.(npu := s.npu.(models := s.npu.models[i := m]))
    case Unregister(i) => s.(npu := s.npu.(models := s.npu.models[i := Model(false, false, None, 0)]))
  }

  // The checksum the registry holds for a blob is right, or there is none to check.
  predicate Sound(w: World, p: nat) {
    w.crc(p) == 0 || Crc(w.blob(p)) == w.crc(p)
  }

  ghost predicate NpuOk(w: World, npu: Npu) {
    && (npu.resident.Some? ==> npu.hal == npu.resident && Sound(w, npu.resident.value))
    && forall i :: 0 <= i < |npu.models| && npu.models[i].data.Some? ==>
         npu.models[i].crc == w.crc(npu.models[i].data.value)
  }

  // The contract: the blob of the model a fresh job runs on is in the NPU, checked, as
  // long as the job runs.
  ghost predicate Served(w: World, s: System) {
    s.serving.Some? ==> HasJob(s.sched.pc) && s.npu.hal == s.serving && Sound(w, s.serving.value)
  }

  ghost predicate SystemOk(w: World, s: System) {
    InferScheduler.Inv(s.sched) && NpuOk(w, s.npu) && Served(w, s) && (s.sched.pc.Starting? ==> s.serving.None?)
  }

  lemma EnsuredIsResident(w: World, npu: Npu, i: nat, hal: Option<Errno>)
    requires NpuOk(w, npu)
    ensures var r := Ensured(w, npu, i, hal);
            && NpuOk(w, r.npu) && r.npu.models == npu.models
            && (r.err.None? ==> i < |npu.models| && npu.models[i].active && npu.models[i].loaded)
            && (r.err.None? && npu.models[i].data.Some? ==>
                  r.npu.hal == npu.models[i].data && Sound(w, npu.models[i].data.value))
  {
    hide Crc;
  }

  lemma LoadedIsResident(w: World, npu: Npu, i: nat, hal: Option<Errno>)
    requires NpuOk(w, npu) && i < |npu.models|
    ensures NpuOk(w, DidLoad(w, npu, i, hal).npu)
  {
    hide Crc;
  }

  lemma StartKeeps(w: World, s: System, hal: Option<Errno>)
    requires SystemOk(w, s) && Enabled(s.sched, Begin)
    ensures SystemOk(w, Started(w, s, hal))
  {
    StepKeepsInv(s.sched, Begin);
    StepKeepsInv(s.sched, FailEarly);
    var i := w.modelOf(s.sched.jobs[s.sched.pc.j].pipe);
    EnsuredIsResident(w, s.npu, i, hal);
    hide Ensured, Inv, NpuOk, Sound;
  }

  lemma SchedKeeps(w: World, s: System, e: Event)
    requires SystemOk(w, s) && Can(s, Sched(e))
    ensures SystemOk(w, After(w, s, Sched(e)))
  {
    StepKeepsInv(s.sched, e);
    hide Inv, NpuOk, Sound;
    OnlyDispatchStarts(s.sched, e);
    hide Next, Enabled;
  }

  // Only dispatch takes the scheduler to the start of a job, from having none.
  lemma OnlyDispatchStarts(st: State, e: Event)
    requires Enabled(st, e) && e != Begin
    ensures Next(st, e).pc.Starting? && !st.pc.Starting? ==> !HasJob(st.pc)
    ensures HasJob(Next(st, e).pc) && !Next(st, e).pc.Starting? ==> HasJob(st.pc)
  {
    if e.Destroy? {
      DestroyKeepsPc(st, e.pipe, |st.jobs|);
    }
    hide Pick, DestroyFirst, FirstFree, FirstSlot, PreemptPending;
  }

  lemma {:induction false} DestroyKeepsPc(st: State, pipe: nat, n: nat)
    requires n <= |st.jobs|
    ensures DestroyFirst(st, pipe, n).pc == st.pc
  {
    if n > 0 {
      DestroyKeepsPc(st, pipe, n - 1);
    }
  }

  lemma ChangerKeeps(w: World, s: System, t: Step)
    requires SystemOk(w, s) && Can(s, t) && (t.Load? || t.Drop?)
    ensures SystemOk(w, After(w, s, t))
  {
    assert !HasJob(s.sched.pc);
    if t.Load? {
      LoadedIsResident(w, s.npu, t.i, t.hal);
    }
    hide Inv, Sound, DidLoad;
  }

  lemma RegistryKeeps(w: World, s: System, t: Step)
    requires SystemOk(w, s) && Can(s, t) && (t.ClearLoaded? || t.Attach? || t.Unregister?)
    ensures SystemOk(w, After(w, s, t))
  {
    hide Inv, Sound;
  }

  lemma StepKeepsSystem(w: World, s: System, t: Step)
    requires SystemOk(w, s) && Can(s, t)
    ensures SystemOk(w, After(w, s, t))
  {
    match t
    case Sched(e) => SchedKeeps(w, s, e);
    case Start(hal) => StartKeeps(w, s, hal);
    case Load(_, _) => ChangerKeeps(w, s, t);
    case Drop => ChangerKeeps(w, s, t);
    case _ => RegistryKeeps(w, s, t);
  }

  // Who may touch the NPU: it changes only by the gate holder while no job runs, or by
  // the scheduler in the name of the one job that does.
  lemma ResidencyExclusion(w: World, s: System, t: Step)
    requires SystemOk(w, s) && Can(s, t) && After(w, s, t).npu.hal != s.npu.hal
    ensures || (s.sched.changer == Inside && forall i :: 0 <= i < |s.sched.jobs| ==> s.sched.jobs[i].state != Running)
            || (t.Start? && s.sched.pc.Starting? && s.sched.jobs[s.sched.pc.j].state == Running &&
                s.sched.changer != Inside)
  {
    InvExcludes(s.sched);
    hide Next, Ensured, DidLoad;
  }

  ghost predicate Possible(w: World, s: System, run: seq<Step>)
    decreases |run|
  {
    run == [] || (Can(s, run[0]) && Possible(w, After(w, s, run[0]), run[1..]))
  }

  function Run(w: World, s: System, run: seq<Step>): System
    requires Possible(w, s, run)
    decreases |run|
  {
    if run == [] then s else Run(w, After(w, s, run[0]), run[1..])
  }

  lemma {:induction false} RunKeepsSystem(w: World, s: System, run: seq<Step>)
    requires SystemOk(w, s) && Possible(w, s, run)
    ensures SystemOk(w, Run(w, s, run))
    decreases |run|
  {
    hide SystemOk, Can, After;
    if run != [] {
      StepKeepsSystem(w, s, run[0]);
      RunKeepsSystem(w, After(w, s, run[0]), run[1..]);
    }
  }

  const NO_MODEL := Model(false, false, None, 0)

  function Fresh(capacity: nat, models: nat): System {
    System(Initial(capacity), Npu(seq(models, _ => NO_MODEL), None, None), None)
  }

  // The residency contract over every run: while a fresh job of a model with data runs,
  // the NPU holds exactly that model's blob, and it passed its checksum; and the NPU's
  // holder never changes it meanwhile.
  lemma ResidencyContract(w: World, capacity: nat, models: nat, run: seq<Step>)
    requires Possible(w, Fresh(capacity, models), run)
    ensures var s := Run(w, Fresh(capacity, models), run);
            && Served(w, s)
            && (s.serving.Some? ==> s.sched.changer != Inside)
  {
    InitialInv(capacity);
    RunKeepsSystem(w, Fresh(capacity, models), run);
    var s := Run(w, Fresh(capacity, models), run);
    hide Possible, Run, Sound, NpuOk;
  }

  // A fresh job is started only on a registered and loaded model, and on its own blob
  // when it has one.
  lemma StartServesOwnModel(w: World, s: System, hal: Option<Errno>)
    requires SystemOk(w, s) && Can(s, Start(hal)) && After(w, s, Start(hal)).sched.pc.Working?
    ensures var i, n := w.modelOf(s.sched.jobs[s.sched.pc.j].pipe), After(w, s, Start(hal));
            && i < |s.npu.models| && s.npu.models[i].active && s.npu.models[i].loaded
            && n.serving == s.npu.models[i].data
            && (n.serving.Some? ==> n.npu.hal == n.serving && Sound(w, n.serving.value))
  {
    EnsuredIsResident(w, s.npu, w.modelOf(s.sched.jobs[s.sched.pc.j].pipe), hal);
    hide Ensured, Inv, NpuOk, Sound;
  }

  // When a load succeeds, and what it leaves: the flag set on that model and no other, and
  // the NPU given its blob if it has one; a load that fails changes nothing.
  lemma LoadMeans(w: World, npu: Npu, i: nat, hal: Option<Errno>)
    requires i < |npu.models|
    ensures var m, r := npu.models[i], DidLoad(w, npu, i, hal);
            && (r.err.None? <==> m.data.None? || ((m.crc == 0 || Crc(w.blob(m.data.value)) == m.crc) && hal.None?))
            && (r.err.Some? ==> r.npu == npu)
            && (r.err.None? ==>
                  && |r.npu.models| == |npu.models| && r.npu.models[i] == Model(m.active, true, m.data, m.crc)
                  && (forall k :: 0 <= k < |npu.models| && k != i ==> r.npu.models[k] == npu.models[k])
                  && (if m.data.Some? then r.npu.resident == r.npu.hal == m.data
                      else r.npu.resident == npu.resident && r.npu.hal == npu.hal))
  {
    hide Crc;
  }

  // A fresh job starts exactly when its model is registered and loaded and its blob is
  // resident already or can be made so.
  lemma StartSucceedsIff(w: World, s: System, hal: Option<Errno>)
    requires Can(s, Start(hal))
    ensures var i, n := w.modelOf(s.sched.jobs[s.sched.pc.j].pipe), After(w, s, Start(hal));
            n.sched.pc.Working? <==>
              && i < |s.npu.models| && s.npu.models[i].active && s.npu.models[i].loaded
              && var m := s.npu.models[i];
                 || m.data.None? || m.data == s.npu.resident
                 || ((m.crc == 0 || Crc(w.blob(m.data.value)) == m.crc) && hal.None?)
  {
    hide Crc;
    assert InferScheduler.Next(s.sched, Begin).pc.Working? && !InferScheduler.Next(s.sched, FailEarly).pc.Working?;
    hide InferScheduler.Next;
  }

  // ---- the registry as it runs ----

  class Registry {
    ghost const w: World
    const blobs: nat -> seq<u8>
    var slots: seq<Model>
    var residentData: Option<nat>
    var hal: Option<nat>

    ghost function Now(): Npu
      reads this
    {
      Npu(slots, residentData, hal)
    }

    ghost predicate Valid() {
      w.blob == blobs
    }

    constructor (w: World, capacity: nat)
      ensures Valid() && this.w == w && Now() == Npu(seq(capacity, _ => NO_MODEL), None, None)
    {
      this.w := w;
      blobs := w.blob;
      slots := seq(capacity, _ => NO_MODEL);
      residentData, hal := None, None;
    }

    // Make the slot's data the resident model; answer is what the NPU says to the load.
    method HalLoad(idx: nat, answer: Option<Errno>) returns (err: Option<Errno>)
      requires Valid() && idx < |slots|
      modifies `residentData, `hal
      ensures Outcome(Now(), err) == HalLoaded(w, old(Now()), idx, answer)
    {
      var m := slots[idx];
      if m.data.Some? {
        if m.crc != 0 {
          var crc := Crc(blobs(m.data.value));
          if crc != m.crc {
            return Some(EILSEQ);
          }
        }
        if answer.Some? {
          return answer;
        }
        hal := m.data;
        residentData := m.data;
      }
      return None;
    }

    method DoLoad(idx: nat, answer: Option<Errno>) returns (err: Option<Errno>)
      requires Valid() && idx < |slots|
      modifies `residentData, `hal, `slots
      ensures Outcome(Now(), err) == DidLoad(w, old(Now()), idx, answer)
    {
      hide Passes;
      err := HalLoad(idx, answer);
      if err.Some? {
        return err;
      }
      slots := slots[idx := slots[idx].(loaded := true)];
    }

    method EnsureResident(idx: nat, answer: Option<Errno>) returns (err: Option<Errno>)
      requires Valid()
      modifies `residentData, `hal
      ensures Outcome(Now(), err) == Ensured(w, old(Now()), idx, answer)
    {
      hide Passes;
      if idx >= |slots| || !slots[idx].active {
        return Some(EINVAL);
      }
      if !slots[idx].loaded {
        return Some(ENOEXEC);
      }
      if slots[idx].data.None? || slots[idx].data == residentData {
        return None;
      }
      err := HalLoad(idx, answer);
    }

    // Between quiesce and release.
    method Load(idx: nat, answer: Option<Errno>) returns (err: Option<Errno>)
      requires Valid()
      modifies `residentData, `hal, `slots
      ensures idx >= |old(slots)| || !old(slots)[idx].active ==> err == Some(EINVAL) && unchanged(this)
      ensures idx < |old(slots)| && old(slots)[idx].active && old(slots)[idx].loaded ==>
        err == Some(EALREADY) && unchanged(this)
      ensures idx < |old(slots)| && old(slots)[idx].active && !old(slots)[idx].loaded ==>
        Outcome(Now(), err) == DidLoad(w, old(Now()), idx, answer)
    {
      hide DidLoad;
      if idx >= |slots| || !slots[idx].active {
        return Some(EINVAL);
      }
      if slots[idx].loaded {
        return Some(EALREADY);
      }
      err := DoLoad(idx, answer);
    }

    // suspended says that a parked job still needs the model.
    method Unload(idx: nat, suspended: bool) returns (err: Option<Errno>)
      requires Valid()
      modifies `residentData, `hal, `slots
      ensures idx >= |old(slots)| || !old(slots)[idx].active ==> err == Some(EINVAL) && unchanged(this)
      ensures idx < |old(slots)| && old(slots)[idx].active ==>
        if !old(slots)[idx].loaded then err == Some(EALREADY) && unchanged(this)
        else if suspended then err == Some(EBUSY) && unchanged(this)
        else err.None? && Now() == Dropped(Unloaded(old(Now()), idx), old(slots)[idx].data)
      // On success the model is no longer loaded, and the NPU no longer holds its blob.
      ensures err.None? ==>
        && |slots| == |old(slots)| && slots[idx] == old(slots)[idx].(loaded := false)
        && (forall k :: 0 <= k < |slots| && k != idx ==> slots[k] == old(slots)[k])
        && if old(slots)[idx].data.Some? && old(slots)[idx].data == old(residentData)
           then residentData.None? && hal.None? else residentData == old(residentData) && hal == old(hal)
    {
      if idx >= |slots| || !slots[idx].active {
        return Some(EINVAL);
      }
      if !slots[idx].loaded {
        return Some(EALREADY);
      }
      if suspended {
        return Some(EBUSY);
      }
      slots := slots[idx := slots[idx].(loaded := false)];
      if slots[idx].data.Some? && slots[idx].data == residentData {
        hal := None;
        residentData := None;
      }
      return None;
    }

    // The old model is no longer loaded even when loading the new one fails.
    method Swap(old_: nat, new_: nat, answer: Option<Errno>) returns (err: Option<Errno>)
      requires Valid()
      modifies `residentData, `hal, `slots
      ensures old_ >= |old(slots)| || new_ >= |old(slots)| || old_ == new_ ==> err == Some(EINVAL) && unchanged(this)
      ensures old_ < |old(slots)| && new_ < |old(slots)| && old_ != new_ ==>
        if !old(slots)[old_].active || !old(slots)[new_].active then err == Some(EINVAL) && unchanged(this)
        else if old(slots)[new_].loaded then err.None? && Now() == Unloaded(old(Now()), old_)
        else Outcome(Now(), err) == DidLoad(w, Unloaded(old(Now()), old_), new_, answer)
      // Whatever comes of it the old model is out, and on success the new one is in.
      ensures err != Some(EINVAL) ==> old_ < |slots| && new_ < |slots| && old_ != new_ && !slots[old_].loaded
      ensures err.None? ==> slots[new_].loaded
    {
      hide DidLoad;
      if old_ >= |slots| || new_ >= |slots| || old_ == new_ || !slots[old_].active || !slots[new_].active {
        return Some(EINVAL);
      }
      slots := slots[old_ := slots[old_].(loaded := false)];
      if slots[new_].loaded {
        err := None;
      } else {
        LoadMeans(w, Now(), new_, answer);
        err := DoLoad(new_, answer);
      }
    }
  }

  // Unload releases the NPU when it holds the model's data.
  function Dropped(npu: Npu, data: Option<nat>): Npu {
    if data.Some? && data == npu.resident then npu.(resident := None, hal := None) else npu
  }
}
