// Layer-by-layer execution in one shared activation area, with sessions parked in
// suspension slots and resumed.
//
// Three levels. Reference gives every activation a buffer of its own. Ideal is the
// executor one would write with it: a session is its blob, its input and the number of
// layers done. Npu is the executor as built: offsets in one shared area, copies of the
// area in the slots, and a plan recomputed at every begin and restore. RunsAgree says
// no caller can tell Npu from Ideal.
module LayeredExecutor {
  import opened Errno
  import opened Bytes
  import opened LayeredFormat
  import opened LayeredPlanner

  const CTX_SLOTS := 2

  // ---- one layer ----

  // Output byte j of layer i: two positions of the primary source, the layer index, the
  // position, and the skip source when there is one, modulo 256.
  function Mix(i: nat, a: seq<u8>, b: Option<seq<u8>>, j: nat): u8
    requires |a| > 0 && (b.Some? ==> |b.value| > 0)
  {
    var acc: int := a[j % |a|] as int * 31 + a[(j * 7 + i) % |a|] as int + i * 13 + j * 3;
    (if b.Some? then acc + b.value[j % |b.value|] as int * 17 else acc) % 0x100
  }

  function Transform(i: nat, outSize: nat, a: seq<u8>, b: Option<seq<u8>>): (r: seq<u8>)
    requires |a| > 0 && (b.Some? ==> |b.value| > 0)
    ensures |r| == outSize
  {
    seq(outSize, j requires 0 <= j < outSize => Mix(i, a, b, j))
  }

  // ---- the reference executor ----

  // All activations after k layers, each in a buffer of its own.
  function Reference(m: Model, actMax: nat, input: seq<u8>, k: nat): (r: seq<seq<u8>>)
    requires WellFormed(m, actMax) && |input| == m.inputSize && k <= |m.layers|
    ensures |r| == k + 1
    ensures forall b :: 0 <= b <= k ==> |r[b]| == BufferSize(m, b)
  {
    if k == 0 then [input]
    else
      var before := Reference(m, actMax, input, k - 1);
      var l := m.layers[k - 1];
      before + [Transform(k - 1, l.outSize, before[l.srcA], if l.srcB >= 0 then Some(before[l.srcB]) else None)]
  }

  datatype Session = Session(blob: seq<u8>, input: seq<u8>, next: nat)

  // Broken: a begin that failed has replaced the plan of a live session by another blob's.
  datatype Live<S> = Idle | Running(s: S) | Broken

  datatype Config = Config(actMax: nat, planMax: nat)

  // The blob parses and its plan fits the area.
  ghost predicate Plannable(cfg: Config, blob: seq<u8>) {
    var r := Parse(Some(blob), cfg.actMax);
    r.Ok? && Fits(Buffers(r.value), cfg.planMax, |r.value.layers| + 1)
  }

  ghost function ModelOf(cfg: Config, blob: seq<u8>): (m: Model)
    requires Plannable(cfg, blob)
    ensures WellFormed(m, cfg.actMax)
  {
    ParsedIsWellFormed(Some(blob), cfg.actMax);
    Parse(Some(blob), cfg.actMax).value
  }

  datatype Op =
    | Load(data: Option<seq<u8>>)
    | Begin(input: Option<seq<u8>>)
    | Step
    | Remaining
    | Output(capacity: Option<nat>)
    | Save
    | Restore(slot: int)
    | SlotFree(slot: int)

  datatype Reply = Done | Count(n: int) | Data(bytes: seq<u8>) | Failed(error: Errno)

  // ---- the ideal executor ----

  datatype Ideal = Ideal(resident: Option<seq<u8>>, live: Live<Session>, slots: seq<Option<Session>>)

  predicate SessionOp(op: Op) {
    op.Step? || op.Remaining? || op.Output? || op.Save?
  }

  function Interrupted<S>(live: Live<S>): Live<S> {
    if live.Idle? then Idle else Broken
  }

  // A refused begin replans the resident blob, which harms no session of that very blob.
  predicate Unharmed(live: Live<Session>, resident: Option<seq<u8>>) {
    resident.None? || (live.Running? && resident == Some(live.s.blob))
  }

  predicate Occupied<S>(slots: seq<Option<S>>, slot: int) {
    0 <= slot < |slots| && slots[slot].Some?
  }

  function FirstEmpty<S>(slots: seq<Option<S>>, from: nat): (r: nat)
    requires from <= |slots|
    ensures from <= r <= |slots|
    ensures r < |slots| ==> slots[r].None?
    ensures forall s :: from <= s < r ==> slots[s].Some?
    decreases |slots| - from
  {
    if from == |slots| || slots[from].None? then from else FirstEmpty(slots, from + 1)
  }

  predicate Accepts(m: Model, input: Option<seq<u8>>) {
    input.Some? && |input.value| == m.inputSize
  }

  // What begin answers before it touches any session.
  ghost function BeginReply(cfg: Config, resident: Option<seq<u8>>, input: Option<seq<u8>>): Reply {
    if resident.None? then Count(0)
    else match Parse(resident, cfg.actMax)
      case Err(e) => if e == ENOTSUP then Count(0) else Failed(e)
      case Ok(m) =>
        if !Fits(Buffers(m), cfg.planMax, |m.layers| + 1) then Failed(ENOMEM)
        else if !Accepts(m, input) then Failed(EINVAL)
        else Count(|m.layers|)
  }

  ghost predicate Starts(cfg: Config, resident: Option<seq<u8>>, input: Option<seq<u8>>) {
    resident.Some? && Plannable(cfg, resident.value) && Accepts(ModelOf(cfg, resident.value), input)
  }

  function LoadResident(cfg: Config, data: Option<seq<u8>>): Option<seq<u8>> {
    if Parse(data, cfg.actMax).Ok? then data else None
  }

  ghost predicate IdealValid(cfg: Config, s: Ideal) {
    && |s.slots| == CTX_SLOTS
    && (s.live.Running? ==> SessionValid(cfg, s.live.s))
    && forall k :: 0 <= k < CTX_SLOTS && s.slots[k].Some? ==> SessionValid(cfg, s.slots[k].value)
  }

  ghost predicate SessionValid(cfg: Config, x: Session) {
    && Plannable(cfg, x.blob)
    && x.next <= |ModelOf(cfg, x.blob).layers|
    && |x.input| == ModelOf(cfg, x.blob).inputSize
  }

  ghost function IdealBegin(cfg: Config, s: Ideal, input: Option<seq<u8>>): (r: Ideal)
    requires IdealValid(cfg, s)
    ensures IdealValid(cfg, r)
  {
    if Starts(cfg, s.resident, input) then s.(live := Running(Session(s.resident.value, input.value, 0)))
    else if Unharmed(s.live, s.resident) then s
    else s.(live := Interrupted(s.live))
  }

  ghost function IdealStep(cfg: Config, s: Ideal): (r: (Ideal, Reply))
    requires IdealValid(cfg, s) && !s.live.Broken?
    ensures IdealValid(cfg, r.0)
  {
    if s.live.Idle? then (s, Failed(EPERM))
    else
      var n := |ModelOf(cfg, s.live.s.blob).layers|;
      if s.live.s.next >= n then (s, Failed(EPERM))
      else (s.(live := Running(s.live.s.(next := s.live.s.next + 1))), Count(n - (s.live.s.next + 1)))
  }

  ghost function IdealOutput(cfg: Config, s: Ideal, capacity: Option<nat>): (r: (Ideal, Reply))
    requires IdealValid(cfg, s) && !s.live.Broken?
    ensures IdealValid(cfg, r.0)
  {
    if s.live.Idle? then (s, Failed(EPERM))
    else
      var m := ModelOf(cfg, s.live.s.blob);
      var n := |m.layers|;
      if s.live.s.next < n then (s, Failed(EBUSY))
      else if capacity.None? || capacity.value < BufferSize(m, n) then (s, Failed(ENOMEM))
      else (s.(live := Idle), Data(Reference(m, cfg.actMax, s.live.s.input, n)[n]))
  }

  ghost function IdealSave(cfg: Config, s: Ideal): (r: (Ideal, Reply))
    requires IdealValid(cfg, s) && !s.live.Broken?
    ensures IdealValid(cfg, r.0)
  {
    if s.live.Idle? then (s, Failed(EPERM))
    else
      var k := FirstEmpty(s.slots, 0);
      if k == CTX_SLOTS then (s, Failed(ENOSPC))
      else (s.(slots := s.slots[k := Some(s.live.s)], live := Idle), Count(k))
  }

  ghost function IdealRestore(cfg: Config, s: Ideal, slot: int): (r: (Ideal, Reply))
    requires IdealValid(cfg, s)
    ensures IdealValid(cfg, r.0)
  {
    if !Occupied(s.slots, slot) then (s, Failed(EINVAL))
    else (s.(live := Running(s.slots[slot].value), slots := s.slots[slot := None]), Done)
  }

  ghost function IdealNext(cfg: Config, s: Ideal, op: Op): (r: (Ideal, Reply))
    requires IdealValid(cfg, s) && (SessionOp(op) ==> !s.live.Broken?)
    ensures IdealValid(cfg, r.0)
  {
    match op
    case Load(data) => (s.(resident := LoadResident(cfg, data)), Done)
    case Begin(input) => (IdealBegin(cfg, s, input), BeginReply(cfg, s.resident, input))
    case Step => IdealStep(cfg, s)
    case Remaining =>
      if s.live.Idle? then (s, Failed(EPERM))
      else (s, Count(|ModelOf(cfg, s.live.s.blob).layers| - s.live.s.next))
    case Output(capacity) => IdealOutput(cfg, s, capacity)
    case Save => IdealSave(cfg, s)
    case Restore(slot) => IdealRestore(cfg, s, slot)
    case SlotFree(slot) =>
      if 0 <= slot < CTX_SLOTS then (s.(slots := s.slots[slot := None]), Done) else (s, Done)
  }

  // ---- the executor as built ----

  datatype Progress = Progress(blob: seq<u8>, next: nat)
  datatype Parked = Parked(blob: seq<u8>, next: nat, saved: seq<u8>)

  datatype Npu = Npu(resident: Option<seq<u8>>, live: Live<Progress>, area: seq<u8>, slots: seq<Option<Parked>>)

  ghost function PlanOffsets(m: Model): (r: seq<nat>)
    ensures |r| == |m.layers| + 1
  {
    Offsets(Buffers(m), |m.layers| + 1)
  }

  ghost function PlanPeak(m: Model): nat {
    Peak(Buffers(m), PlanOffsets(m))
  }

  lemma PeakFits(cfg: Config, m: Model)
    requires Fits(Buffers(m), cfg.planMax, |m.layers| + 1)
    ensures PlanPeak(m) <= cfg.planMax
    ensures forall b :: 0 <= b <= |m.layers| ==> PlanOffsets(m)[b] + BufferSize(m, b) <= PlanPeak(m)
  {
    var bufs := Buffers(m);
    forall b | 0 <= b <= |m.layers| ensures PlanOffsets(m)[b] + BufferSize(m, b) <= PlanPeak(m) {
      PeakCovers(bufs, PlanOffsets(m), b);
      assert bufs[b].size == BufferSize(m, b);
    }
    PeakBelow(bufs, PlanOffsets(m), cfg.planMax);
  }

  function Put(area: seq<u8>, at: nat, bytes: seq<u8>): (r: seq<u8>)
    requires at + |bytes| <= |area|
    ensures |r| == |area|
  {
    area[..at] + bytes + area[at + |bytes|..]
  }

  ghost function Slice(m: Model, area: seq<u8>, b: nat): (r: seq<u8>)
    requires b <= |m.layers| && PlanPeak(m) <= |area|
    requires PlanOffsets(m)[b] + BufferSize(m, b) <= |area|
    ensures |r| == BufferSize(m, b)
  {
    area[PlanOffsets(m)[b]..PlanOffsets(m)[b] + BufferSize(m, b)]
  }

  // The area after layer i, whose sources are read where the plan put them.
  ghost function LayerArea(cfg: Config, m: Model, area: seq<u8>, i: nat): (r: seq<u8>)
    requires WellFormed(m, cfg.actMax) && Fits(Buffers(m), cfg.planMax, |m.layers| + 1)
    requires i < |m.layers| && |area| == cfg.planMax
    ensures |r| == |area|
  {
    PeakFits(cfg, m);
    var l := m.layers[i];
    Put(area, PlanOffsets(m)[i + 1],
        Transform(i, l.outSize, Slice(m, area, l.srcA),
                  if l.srcB >= 0 then Some(Slice(m, area, l.srcB)) else None))
  }

  // A refused begin may leave more layers done than the new plan has.
  ghost predicate ProgressValid(cfg: Config, p: Progress) {
    Plannable(cfg, p.blob)
  }

  ghost predicate ParkedValid(cfg: Config, p: Parked) {
    && Plannable(cfg, p.blob)
    && |p.saved| == PlanPeak(ModelOf(cfg, p.blob))
  }

  ghost predicate NpuValid(cfg: Config, s: Npu) {
    && |s.area| == cfg.planMax
    && |s.slots| == CTX_SLOTS
    && (s.live.Running? ==> ProgressValid(cfg, s.live.s))
    && forall k :: 0 <= k < CTX_SLOTS && s.slots[k].Some? ==> ParkedValid(cfg, s.slots[k].value)
  }

  // Planning succeeded and the input was refused: the live session goes on with the new
  // plan, whosever it is.
  function Replanned(live: Live<Progress>, blob: seq<u8>): Live<Progress> {
    if live.Running? then Running(live.s.(blob := blob)) else live
  }

  ghost function NpuBegin(cfg: Config, s: Npu, input: Option<seq<u8>>): (r: Npu)
    requires NpuValid(cfg, s)
    ensures NpuValid(cfg, r)
  {
    if Starts(cfg, s.resident, input) then
      var m := ModelOf(cfg, s.resident.value);
      PeakFits(cfg, m);
      assert BufferSize(m, 0) == m.inputSize;
      s.(area := Put(s.area, PlanOffsets(m)[0], input.value), live := Running(Progress(s.resident.value, 0)))
    else if s.resident.None? then s
    else if Plannable(cfg, s.resident.value) then s.(live := Replanned(s.live, s.resident.value))
    else s.(live := Interrupted(s.live))
  }

  ghost function NpuStep(cfg: Config, s: Npu): (r: (Npu, Reply))
    requires NpuValid(cfg, s) && !s.live.Broken?
    ensures NpuValid(cfg, r.0)
  {
    if s.live.Idle? then (s, Failed(EPERM))
    else
      var m := ModelOf(cfg, s.live.s.blob);
      if s.live.s.next >= |m.layers| then (s, Failed(EPERM))
      else (s.(area := LayerArea(cfg, m, s.area, s.live.s.next),
               live := Running(s.live.s.(next := s.live.s.next + 1))),
            Count(|m.layers| - (s.live.s.next + 1)))
  }

  ghost function NpuOutput(cfg: Config, s: Npu, capacity: Option<nat>): (r: (Npu, Reply))
    requires NpuValid(cfg, s) && !s.live.Broken?
    ensures NpuValid(cfg, r.0)
  {
    if s.live.Idle? then (s, Failed(EPERM))
    else
      var m := ModelOf(cfg, s.live.s.blob);
      PeakFits(cfg, m);
      if s.live.s.next < |m.layers| then (s, Failed(EBUSY))
      else if capacity.None? || capacity.value < BufferSize(m, |m.layers|) then (s, Failed(ENOMEM))
      else (s.(live := Idle), Data(Slice(m, s.area, |m.layers|)))
  }

  ghost function NpuSave(cfg: Config, s: Npu): (r: (Npu, Reply))
    requires NpuValid(cfg, s) && !s.live.Broken?
    ensures NpuValid(cfg, r.0)
  {
    if s.live.Idle? then (s, Failed(EPERM))
    else
      var k := FirstEmpty(s.slots, 0);
      var m := ModelOf(cfg, s.live.s.blob);
      PeakFits(cfg, m);
      if k == CTX_SLOTS then (s, Failed(ENOSPC))
      else (s.(slots := s.slots[k := Some(Parked(s.live.s.blob, s.live.s.next, s.area[..PlanPeak(m)]))],
               live := Idle), Count(k))
  }

  ghost function NpuRestore(cfg: Config, s: Npu, slot: int): (r: (Npu, Reply))
    requires NpuValid(cfg, s)
    ensures NpuValid(cfg, r.0)
  {
    if !Occupied(s.slots, slot) then (s, Failed(EINVAL))
    else
      var p := s.slots[slot].value;
      PeakFits(cfg, ModelOf(cfg, p.blob));
      (s.(area := Put(s.area, 0, p.saved), live := Running(Progress(p.blob, p.next)),
          slots := s.slots[slot := None]), Done)
  }

  ghost function NpuNext(cfg: Config, s: Npu, op: Op): (r: (Npu, Reply))
    requires NpuValid(cfg, s) && (SessionOp(op) ==> !s.live.Broken?)
    ensures NpuValid(cfg, r.0)
  {
    match op
    case Load(data) => (s.(resident := LoadResident(cfg, data)), Done)
    case Begin(input) => (NpuBegin(cfg, s, input), BeginReply(cfg, s.resident, input))
    case Step => NpuStep(cfg, s)
    case Remaining =>
      if s.live.Idle? then (s, Failed(EPERM))
      else (s, Count(|ModelOf(cfg, s.live.s.blob).layers| - s.live.s.next))
    case Output(capacity) => NpuOutput(cfg, s, capacity)
    case Save => NpuSave(cfg, s)
    case Restore(slot) => NpuRestore(cfg, s, slot)
    case SlotFree(slot) =>
      if 0 <= slot < CTX_SLOTS then (s.(slots := s.slots[slot := None]), Done) else (s, Done)
  }

  // ---- the refinement ----

  // Every buffer still to be read holds its reference activation.
  ghost predicate Holds(m: Model, actMax: nat, input: seq<u8>, next: nat, area: seq<u8>)
    requires WellFormed(m, actMax) && |input| == m.inputSize && next <= |m.layers|
    requires PlanPeak(m) <= |area|
  {
    forall b :: 0 <= b <= next && LastTime(m, b) >= next ==>
      && PlanOffsets(m)[b] + BufferSize(m, b) <= |area|
      && Slice(m, area, b) == Reference(m, actMax, input, next)[b]
  }

  ghost predicate SameSession(cfg: Config, x: Session, blob: seq<u8>, next: nat, area: seq<u8>) {
    && SessionValid(cfg, x)
    && x.blob == blob && x.next == next
    && PlanPeak(ModelOf(cfg, blob)) <= |area|
    && Holds(ModelOf(cfg, blob), cfg.actMax, x.input, next, area)
  }

  ghost predicate LiveAgrees(cfg: Config, c: Live<Progress>, area: seq<u8>, s: Live<Session>) {
    && (c.Idle? <==> s.Idle?)
    && (s.Running? ==> c.Running? && SameSession(cfg, s.s, c.s.blob, c.s.next, area))
  }

  ghost predicate SlotAgrees(cfg: Config, c: Option<Parked>, s: Option<Session>) {
    && (c.Some? <==> s.Some?)
    && (c.Some? ==> SameSession(cfg, s.value, c.value.blob, c.value.next, c.value.saved))
  }

  ghost predicate Simulates(cfg: Config, c: Npu, s: Ideal) {
    && NpuValid(cfg, c) && IdealValid(cfg, s)
    && c.resident == s.resident
    && LiveAgrees(cfg, c.live, c.area, s.live)
    && forall k :: 0 <= k < CTX_SLOTS ==> SlotAgrees(cfg, c.slots[k], s.slots[k])
  }

  // A source of layer i is still needed when layer i runs.
  lemma SourceIsNeeded(m: Model, actMax: nat, i: nat, b: nat)
    requires WellFormed(m, actMax) && i < |m.layers| && Reads(m.layers[i], b)
    ensures b <= i && LastTime(m, b) >= i
  {
    LastUseCovers(m, b, |m.layers|);
  }

  // A buffer needed after layer i does not share a byte with the output of layer i.
  lemma OutputMissesNeeded(m: Model, actMax: nat, i: nat, b: nat)
    requires WellFormed(m, actMax) && i < |m.layers| && b <= i && LastTime(m, b) >= i
    ensures Disjoint(PlanOffsets(m)[b], BufferSize(m, b), PlanOffsets(m)[i + 1], BufferSize(m, i + 1))
  {
    var bufs := Buffers(m);
    LastUseCovers(m, i + 1, |m.layers|);
    assert bufs[b] == Buffer(BufferSize(m, b), DefTime(b), LastTime(m, b));
    assert bufs[i + 1] == Buffer(BufferSize(m, i + 1), i, LastTime(m, i + 1));
    LiveBuffersDisjoint(bufs, b, i + 1);
  }

  lemma PutElsewhere(area: seq<u8>, at: nat, bytes: seq<u8>, off: nat, size: nat)
    requires at + |bytes| <= |area| && off + size <= |area| && Disjoint(off, size, at, |bytes|)
    ensures Put(area, at, bytes)[off..off + size] == area[off..off + size]
  {
  }

  lemma PutHere(area: seq<u8>, at: nat, bytes: seq<u8>)
    requires at + |bytes| <= |area|
    ensures Put(area, at, bytes)[at..at + |bytes|] == bytes
  {
  }

  // The layer reads the reference activations and writes the reference activation.
  lemma LayerWritesReference(cfg: Config, m: Model, input: seq<u8>, i: nat, area: seq<u8>) returns (out: seq<u8>)
    requires WellFormed(m, cfg.actMax) && Fits(Buffers(m), cfg.planMax, |m.layers| + 1)
    requires |input| == m.inputSize && i < |m.layers| && |area| == cfg.planMax
    requires PlanPeak(m) <= |area| && Holds(m, cfg.actMax, input, i, area)
    ensures |out| == BufferSize(m, i + 1) && PlanOffsets(m)[i + 1] + |out| <= |area|
    ensures LayerArea(cfg, m, area, i) == Put(area, PlanOffsets(m)[i + 1], out)
    ensures Reference(m, cfg.actMax, input, i + 1) == Reference(m, cfg.actMax, input, i) + [out]
  {
    hide Buffers, Fits, PlanPeak, LastTime, Transform;
    PeakFits(cfg, m);
    var l := m.layers[i];
    var before := Reference(m, cfg.actMax, input, i);
    SourceIsNeeded(m, cfg.actMax, i, l.srcA);
    assert Slice(m, area, l.srcA) == before[l.srcA];
    if l.srcB >= 0 {
      SourceIsNeeded(m, cfg.actMax, i, l.srcB);
      assert Slice(m, area, l.srcB) == before[l.srcB];
    }
    out := Transform(i, l.outSize, before[l.srcA], if l.srcB >= 0 then Some(before[l.srcB]) else None);
  }

  lemma BufferAfterLayer(m: Model, actMax: nat, i: nat, area: seq<u8>, out: seq<u8>, b: nat, before: seq<seq<u8>>)
    requires WellFormed(m, actMax) && i < |m.layers| && b <= i + 1 && LastTime(m, b) >= i + 1
    requires PlanPeak(m) <= |area| && PlanOffsets(m)[b] + BufferSize(m, b) <= |area|
    requires |out| == BufferSize(m, i + 1) && PlanOffsets(m)[i + 1] + |out| <= |area|
    requires |before| == i + 1 && (b <= i ==> Slice(m, area, b) == before[b])
    ensures Slice(m, Put(area, PlanOffsets(m)[i + 1], out), b) == (before + [out])[b]
  {
    if b <= i {
      OutputMissesNeeded(m, actMax, i, b);
      PutElsewhere(area, PlanOffsets(m)[i + 1], out, PlanOffsets(m)[b], BufferSize(m, b));
    } else {
      PutHere(area, PlanOffsets(m)[i + 1], out);
    }
  }

  // One layer in the shared area does what it does with separate buffers.
  lemma LayerKeepsHolds(cfg: Config, m: Model, input: seq<u8>, i: nat, area: seq<u8>)
    requires WellFormed(m, cfg.actMax) && Fits(Buffers(m), cfg.planMax, |m.layers| + 1)
    requires |input| == m.inputSize && i < |m.layers| && |area| == cfg.planMax
    requires PlanPeak(m) <= |area| && Holds(m, cfg.actMax, input, i, area)
    ensures Holds(m, cfg.actMax, input, i + 1, LayerArea(cfg, m, area, i))
  {
    PeakFits(cfg, m);
    var out := LayerWritesReference(cfg, m, input, i, area);
    var before := Reference(m, cfg.actMax, input, i);
    var after := LayerArea(cfg, m, area, i);
    forall b | 0 <= b <= i + 1 && LastTime(m, b) >= i + 1
      ensures PlanOffsets(m)[b] + BufferSize(m, b) <= |after|
      ensures Slice(m, after, b) == (before + [out])[b]
    {
      BufferAfterLayer(m, cfg.actMax, i, area, out, b, before);
    }
  }

  lemma SessionStep(cfg: Config, x: Session, area: seq<u8>)
    requires SameSession(cfg, x, x.blob, x.next, area) && |area| == cfg.planMax
    requires x.next < |ModelOf(cfg, x.blob).layers|
    ensures SameSession(cfg, x.(next := x.next + 1), x.blob, x.next + 1,
                        LayerArea(cfg, ModelOf(cfg, x.blob), area, x.next))
  {
    LayerKeepsHolds(cfg, ModelOf(cfg, x.blob), x.input, x.next, area);
  }

  lemma BeginHolds(cfg: Config, m: Model, input: seq<u8>, area: seq<u8>)
    requires WellFormed(m, cfg.actMax) && Fits(Buffers(m), cfg.planMax, |m.layers| + 1)
    requires |input| == m.inputSize && |area| == cfg.planMax
    requires PlanPeak(m) <= |area| && PlanOffsets(m)[0] + |input| <= |area|
    ensures Holds(m, cfg.actMax, input, 0, Put(area, PlanOffsets(m)[0], input))
  {
    PeakFits(cfg, m);
    PutHere(area, PlanOffsets(m)[0], input);
  }

  // Only the planned peak has to be saved, and only it has to be put back.
  lemma HoldsOnPrefix(cfg: Config, m: Model, input: seq<u8>, next: nat, small: seq<u8>, large: seq<u8>)
    requires WellFormed(m, cfg.actMax) && Fits(Buffers(m), cfg.planMax, |m.layers| + 1)
    requires |input| == m.inputSize && next <= |m.layers|
    requires PlanPeak(m) == |small| <= |large| && large[..|small|] == small
    ensures Holds(m, cfg.actMax, input, next, small) <==> Holds(m, cfg.actMax, input, next, large)
  {
    PeakFits(cfg, m);
    forall b | 0 <= b <= next ensures Slice(m, small, b) == Slice(m, large, b) {
      SliceOfPrefix(small, large, PlanOffsets(m)[b], PlanOffsets(m)[b] + BufferSize(m, b));
    }
  }

  lemma SliceOfPrefix(small: seq<u8>, large: seq<u8>, lo: nat, hi: nat)
    requires lo <= hi <= |small| <= |large| && large[..|small|] == small
    ensures small[lo..hi] == large[lo..hi]
  {
    var cut := large[..|small|];
    assert forall k :: lo <= k < hi ==> cut[k] == large[k];
    assert cut[lo..hi] == large[lo..hi];
  }

  lemma FirstEmptyAgrees<S, T>(xs: seq<Option<S>>, ys: seq<Option<T>>, from: nat)
    requires |xs| == |ys| && from <= |xs|
    requires forall k :: 0 <= k < |xs| ==> (xs[k].Some? <==> ys[k].Some?)
    ensures FirstEmpty(xs, from) == FirstEmpty(ys, from)
    decreases |xs| - from
  {
  }

  lemma SimulatesBegin(cfg: Config, c: Npu, s: Ideal, input: Option<seq<u8>>)
    requires Simulates(cfg, c, s)
    ensures Simulates(cfg, NpuBegin(cfg, c, input), IdealBegin(cfg, s, input))
  {
    if Starts(cfg, c.resident, input) {
      var m := ModelOf(cfg, c.resident.value);
      PeakFits(cfg, m);
      assert BufferSize(m, 0) == m.inputSize;
      BeginHolds(cfg, m, input.value, c.area);
    }
  }

  lemma SimulatesStep(cfg: Config, c: Npu, s: Ideal)
    requires Simulates(cfg, c, s) && !s.live.Broken?
    ensures NpuStep(cfg, c).1 == IdealStep(cfg, s).1
    ensures Simulates(cfg, NpuStep(cfg, c).0, IdealStep(cfg, s).0)
  {
    hide LayerArea, Holds, SessionValid, ParkedValid, ModelOf, Plannable;
    if c.live.Running? && c.live.s.next < |ModelOf(cfg, c.live.s.blob).layers| {
      SessionStep(cfg, s.live.s, c.area);
    }
  }

  // What save puts into the slot is the session.
  lemma SavedSession(cfg: Config, x: Session, blob: seq<u8>, next: nat, area: seq<u8>)
    requires SameSession(cfg, x, blob, next, area)
    ensures SameSession(cfg, x, blob, next, area[..PlanPeak(ModelOf(cfg, blob))])
  {
    var m := ModelOf(cfg, blob);
    HoldsOnPrefix(cfg, m, x.input, next, area[..PlanPeak(m)], area);
  }

  lemma SimulatesSave(cfg: Config, c: Npu, s: Ideal)
    requires Simulates(cfg, c, s) && !s.live.Broken?
    ensures NpuSave(cfg, c).1 == IdealSave(cfg, s).1
    ensures Simulates(cfg, NpuSave(cfg, c).0, IdealSave(cfg, s).0)
  {
    FirstEmptyAgrees(c.slots, s.slots, 0);
    if c.live.Running? {
      var m := ModelOf(cfg, c.live.s.blob);
      PeakFits(cfg, m);
      SavedSession(cfg, s.live.s, c.live.s.blob, c.live.s.next, c.area);
      hide SameSession, SessionValid, ModelOf, Plannable, PlanPeak, Parse;
    }
  }

  lemma SimulatesRestore(cfg: Config, c: Npu, s: Ideal, slot: int)
    requires Simulates(cfg, c, s)
    ensures NpuRestore(cfg, c, slot).1 == IdealRestore(cfg, s, slot).1
    ensures Simulates(cfg, NpuRestore(cfg, c, slot).0, IdealRestore(cfg, s, slot).0)
  {
    if Occupied(c.slots, slot) {
      var p := c.slots[slot].value;
      var m := ModelOf(cfg, p.blob);
      PeakFits(cfg, m);
      assert Put(c.area, 0, p.saved)[..|p.saved|] == p.saved;
      HoldsOnPrefix(cfg, m, s.slots[slot].value.input, p.next, p.saved, Put(c.area, 0, p.saved));
    }
  }

  lemma SimulatesOutput(cfg: Config, c: Npu, s: Ideal, capacity: Option<nat>)
    requires Simulates(cfg, c, s) && !s.live.Broken?
    ensures NpuOutput(cfg, c, capacity).1 == IdealOutput(cfg, s, capacity).1
    ensures Simulates(cfg, NpuOutput(cfg, c, capacity).0, IdealOutput(cfg, s, capacity).0)
  {
    hide Parse, PlanPeak, PlanOffsets, Reference, ParkedValid;
    if c.live.Running? {
      var m := ModelOf(cfg, c.live.s.blob);
      PeakFits(cfg, m);
      if c.live.s.next == |m.layers| {
        FinalIsHeld(m, cfg.actMax, s.live.s.input, c.area);
        hide Holds, Slice;
      }
    }
  }

  // After the last layer the final buffer holds the reference output.
  lemma FinalIsHeld(m: Model, actMax: nat, input: seq<u8>, area: seq<u8>)
    requires WellFormed(m, actMax) && |input| == m.inputSize && PlanPeak(m) <= |area|
    requires Holds(m, actMax, input, |m.layers|, area)
    ensures PlanOffsets(m)[|m.layers|] + BufferSize(m, |m.layers|) <= |area|
    ensures Slice(m, area, |m.layers|) == Reference(m, actMax, input, |m.layers|)[|m.layers|]
  {
    assert LastTime(m, |m.layers|) == |m.layers|;
    hide Reference, PlanPeak, PlanOffsets;
  }

  lemma SimulatesRest(cfg: Config, c: Npu, s: Ideal, op: Op)
    requires Simulates(cfg, c, s)
    ensures NpuValid(cfg, c) && IdealValid(cfg, s) && c.resident == s.resident
    ensures c.live.Broken? ==> s.live.Broken?
    ensures (SessionOp(op) ==> !s.live.Broken?) && (op.Load? || op.Remaining? || op.SlotFree?) ==>
              && NpuNext(cfg, c, op).1 == IdealNext(cfg, s, op).1
              && Simulates(cfg, NpuNext(cfg, c, op).0, IdealNext(cfg, s, op).0)
  {
  }

  // Every call answers alike and keeps the executors in step.
  lemma CallAgrees(cfg: Config, c: Npu, s: Ideal, op: Op)
    requires Simulates(cfg, c, s) && (SessionOp(op) ==> !s.live.Broken?)
    ensures NpuNext(cfg, c, op).1 == IdealNext(cfg, s, op).1
    ensures Simulates(cfg, NpuNext(cfg, c, op).0, IdealNext(cfg, s, op).0)
  {
    hide BeginReply, Starts, Simulates, NpuBegin, NpuStep, NpuOutput, NpuSave, NpuRestore, IdealBegin, IdealStep,
         IdealOutput, IdealSave, IdealRestore;
    SimulatesRest(cfg, c, s, op);
    match op
    case Begin(input) => SimulatesBegin(cfg, c, s, input);
    case Step => SimulatesStep(cfg, c, s);
    case Output(capacity) => SimulatesOutput(cfg, c, s, capacity);
    case Save => SimulatesSave(cfg, c, s);
    case Restore(slot) => SimulatesRestore(cfg, c, s, slot);
    case Load(_) =>
    case Remaining =>
    case SlotFree(_) =>
  }

  // The callers' side of the contract: after a begin that failed over a live session of
  // another blob, the session is not used again before the next successful begin or
  // restore.
  ghost predicate Disciplined(cfg: Config, s: Ideal, ops: seq<Op>)
    requires IdealValid(cfg, s)
    decreases |ops|
  {
    ops == [] ||
    ((SessionOp(ops[0]) ==> !s.live.Broken?) && Disciplined(cfg, IdealNext(cfg, s, ops[0]).0, ops[1..]))
  }

  ghost function IdealRun(cfg: Config, s: Ideal, ops: seq<Op>): seq<Reply>
    requires IdealValid(cfg, s) && Disciplined(cfg, s, ops)
    decreases |ops|
  {
    if ops == [] then []
    else
      var r := IdealNext(cfg, s, ops[0]);
      [r.1] + IdealRun(cfg, r.0, ops[1..])
  }

  ghost predicate NpuRun(cfg: Config, c: Npu, ops: seq<Op>, replies: seq<Reply>)
    requires NpuValid(cfg, c)
    decreases |ops|
  {
    if ops == [] then replies == []
    else
      && replies != []
      && (SessionOp(ops[0]) ==> !c.live.Broken?)
      && replies[0] == NpuNext(cfg, c, ops[0]).1
      && NpuRun(cfg, NpuNext(cfg, c, ops[0]).0, ops[1..], replies[1..])
  }

  lemma {:induction false} RunsAgreeFrom(cfg: Config, c: Npu, s: Ideal, ops: seq<Op>)
    requires Simulates(cfg, c, s) && Disciplined(cfg, s, ops)
    ensures NpuRun(cfg, c, ops, IdealRun(cfg, s, ops))
    decreases |ops|
  {
    if ops != [] {
      CallAgrees(cfg, c, s, ops[0]);
      RunsAgreeFrom(cfg, NpuNext(cfg, c, ops[0]).0, IdealNext(cfg, s, ops[0]).0, ops[1..]);
      assert IdealRun(cfg, s, ops)[1..] == IdealRun(cfg, IdealNext(cfg, s, ops[0]).0, ops[1..]);
    }
  }

  // Preemption is invisible: from power-on, whatever calls are made in whatever order,
  // the shared-area executor gives the replies of the executor in which every
  // activation of every session has a buffer of its own.
  lemma RunsAgree(cfg: Config, area: seq<u8>, ops: seq<Op>)
    requires |area| == cfg.planMax
    requires Disciplined(cfg, Ideal(None, Idle, [None, None]), ops)
    ensures NpuRun(cfg, Npu(None, Idle, area, [None, None]), ops,
                   IdealRun(cfg, Ideal(None, Idle, [None, None]), ops))
  {
    RunsAgreeFrom(cfg, Npu(None, Idle, area, [None, None]), Ideal(None, Idle, [None, None]), ops);
  }

  // ---- a refused begin over a live session ----

  // A begin refused over a live session leaves the executor as it was exactly when the
  // resident blob is the session's own.
  lemma RefusedBeginKeepsIff(cfg: Config, c: Npu, input: Option<seq<u8>>)
    requires NpuValid(cfg, c) && c.live.Running? && c.resident.Some? && !Starts(cfg, c.resident, input)
    ensures NpuBegin(cfg, c, input) == c <==> c.resident == Some(c.live.s.blob)
  {
  }

  function OneByteChain(n: nat): seq<u8>
    requires 1 <= n <= MAX_LAYERS
  {
    Blob(false, 1, ChainLayers(seq(n, _ => 1), None))
  }

  lemma {:induction false} SumOfOnes(bufs: seq<Buffer>)
    requires forall b :: 0 <= b < |bufs| ==> bufs[b].size == 1
    ensures SumSizes(bufs) == |bufs|
  {
    if bufs != [] {
      SumOfOnes(bufs[..|bufs| - 1]);
    }
  }

  lemma OneByteChainParses(n: nat, actMax: nat)
    requires 1 <= n <= MAX_LAYERS && 1 <= actMax
    ensures var r := Parse(Some(OneByteChain(n)), actMax);
            r.Ok? && |r.value.layers| == n && forall b :: 0 <= b <= n ==> BufferSize(r.value, b) == 1
  {
    var ls := ChainLayers(seq(n, _ => 1), None);
    forall i | 0 <= i < n ensures Resolve(ls[i], i, actMax).Ok? && Resolve(ls[i], i, actMax).value.outSize == 1 {
      assert ls[i] == DagLayer(1, 0, SRC_PREV, SRC_NONE);
    }
    hide Parse, Resolve;
    BlobParses(false, 1, ls, [], actMax);
    assert OneByteChain(n) + [] == OneByteChain(n);
    var m := Parse(Some(OneByteChain(n)), actMax).value;
    forall b | 0 <= b <= n ensures BufferSize(m, b) == 1 {
      if b > 0 {
        assert Ok(m.layers[b - 1]) == Resolve(ls[b - 1], b - 1, actMax);
      }
    }
  }

  // A chain of n layers of one byte is planned in any area of n + 1 bytes.
  lemma OneByteChainPlans(cfg: Config, n: nat)
    requires 1 <= n <= MAX_LAYERS && 1 <= cfg.actMax && n + 1 <= cfg.planMax
    ensures Plannable(cfg, OneByteChain(n))
    ensures |ModelOf(cfg, OneByteChain(n)).layers| == n && ModelOf(cfg, OneByteChain(n)).inputSize == 1
    ensures Parse(Some(OneByteChain(n)), cfg.actMax).Ok?
  {
    OneByteChainParses(n, cfg.actMax);
    hide Parse, OneByteChain, Fits, Buffers;
    var m := Parse(Some(OneByteChain(n)), cfg.actMax).value;
    assert m.inputSize == BufferSize(m, 0);
    OneByteBuffersFit(m, cfg.planMax);
  }

  lemma OneByteBuffersFit(m: Model, planMax: nat)
    requires |m.layers| + 1 <= planMax && forall b :: 0 <= b <= |m.layers| ==> BufferSize(m, b) == 1
    ensures Fits(Buffers(m), planMax, |m.layers| + 1)
  {
    var bufs := Buffers(m);
    SumOfOnes(bufs);
    hide Buffers, Offsets, SumSizes, LastTime, BufferSize;
    forall b | 0 <= b < |bufs| ensures Offsets(bufs, |bufs|)[b] + bufs[b].size <= planMax {
      EndWithinSum(bufs, b);
      SumSizesMonotone(bufs, b + 1);
    }
  }

  // Where it is not the session's own the session suffers: from power-on, begin a chain
  // of one layer, load one of two layers and let a begin be refused. The live session
  // then has two layers to go, not one.
  lemma RefusedBeginHarms(cfg: Config, area: seq<u8>)
    requires 1 <= cfg.actMax && 3 <= cfg.planMax == |area|
    ensures var loaded := NpuNext(cfg, Npu(None, Idle, area, [None, None]), Op.Load(Some(OneByteChain(1)))).0;
            var begun := NpuNext(cfg, loaded, Op.Begin(Some([0]))).0;
            var before := NpuNext(cfg, begun, Op.Load(Some(OneByteChain(2)))).0;
            var (after, reply) := NpuNext(cfg, before, Op.Begin(None));
            && reply == Failed(EINVAL)
            && !before.live.Broken? && NpuNext(cfg, before, Op.Remaining).1 == Count(1)
            && !after.live.Broken? && NpuNext(cfg, after, Op.Remaining).1 == Count(2)
  {
    OneByteChainPlans(cfg, 1);
    OneByteChainPlans(cfg, 2);
    hide OneByteChain, Parse, Fits, Buffers, PlanOffsets, PlanPeak;
  }
}
