// The executor with its static state: the plan record, the shared plan area and the two
// suspension slots, updated in place. Every call is proved to do what the specification
// machine of LayeredExecutor does, and to touch nothing else.
module LayeredNpu {
  import opened Errno
  import opened Bytes
  import opened LayeredFormat
  import opened LayeredPlanner
  import opened LayeredExecutor

  // struct layered_ctx; model == None marks a free slot.
  class LayeredCtx {
    var model: Option<seq<u8>>
    var nextLayer: nat
    var liveBytes: nat
    const area: array<u8>

    constructor (planMax: nat)
      ensures model == None && area.Length == planMax && fresh(area)
    {
      model := None;
      nextLayer, liveBytes := 0, 0;
      area := new u8[planMax](_ => 0);
    }
  }

  method CopyBytes(dst: array<u8>, at: nat, src: seq<u8>)
    requires at + |src| <= dst.Length
    modifies dst
    ensures dst[..] == Put(old(dst[..]), at, src)
  {
    forall k | 0 <= k < |src| {
      dst[at + k] := src[k];
    }
  }

  function Span(area: seq<u8>, at: (nat, nat)): seq<u8>
    requires at.0 + at.1 <= |area|
  {
    area[at.0..at.0 + at.1]
  }

  function SkipSpan(area: seq<u8>, at: Option<(nat, nat)>): (r: Option<seq<u8>>)
    requires at.Some? ==> at.value.0 + at.value.1 <= |area|
  {
    if at.Some? then Some(Span(area, at.value)) else None
  }

  lemma SpanAt(area: seq<u8>, at: (nat, nat), k: nat)
    requires at.0 + at.1 <= |area| && k < at.1
    ensures |Span(area, at)| == at.1 && Span(area, at)[k] == area[at.0 + k]
  {
  }

  // Output byte j of layer i.
  method LayerByte(area: array<u8>, i: nat, src: (nat, nat), skip: Option<(nat, nat)>, j: nat) returns (v: u8)
    requires 0 < src.1 && src.0 + src.1 <= area.Length
    requires skip.Some? ==> 0 < skip.value.1 && skip.value.0 + skip.value.1 <= area.Length
    ensures v == Mix(i, Span(area[..], src), SkipSpan(area[..], skip), j)
  {
    SpanAt(area[..], src, j % src.1);
    SpanAt(area[..], src, (j * 7 + i) % src.1);
    var acc: int := area[src.0 + j % src.1] as int * 31 + area[src.0 + (j * 7 + i) % src.1] as int + i * 13 + j * 3;
    if skip.Some? {
      SpanAt(area[..], skip.value, j % skip.value.1);
      acc := acc + area[skip.value.0 + j % skip.value.1] as int * 17;
    }
    hide Span;
    v := acc % 0x100;
  }

  predicate SameOutside(a: seq<u8>, b: seq<u8>, at: nat, size: nat) {
    |a| == |b| && forall k :: 0 <= k < |a| && !(at <= k < at + size) ==> a[k] == b[k]
  }

  // A source stays what it was while only bytes outside it are written.
  lemma SpanStays(before: seq<u8>, now: seq<u8>, src: (nat, nat), offO: nat, out: nat)
    requires SameOutside(now, before, offO, out) && src.0 + src.1 <= |now| && Disjoint(src.0, src.1, offO, out)
    ensures Span(now, src) == Span(before, src)
  {
  }

  // The area with the first j output bytes written.
  function Partly(area: seq<u8>, at: nat, row: seq<u8>, j: nat): (r: seq<u8>)
    requires at + |row| <= |area| && j <= |row|
    ensures SameOutside(r, area, at, |row|)
  {
    Put(area, at, row[..j])
  }

  lemma PartlyNext(area: seq<u8>, at: nat, row: seq<u8>, j: nat)
    requires at + |row| <= |area| && j < |row|
    ensures Partly(area, at, row, j)[at + j := row[j]] == Partly(area, at, row, j + 1)
  {
  }

  // The byte loop of one layer. The planner keeps the output clear of both sources, so
  // writing it byte by byte never changes a byte still to be read.
  method RunLayer(area: array<u8>, i: nat, src: (nat, nat), skip: Option<(nat, nat)>, offO: nat, out: nat)
    requires 0 < src.1 && src.0 + src.1 <= area.Length && offO + out <= area.Length
    requires skip.Some? ==> 0 < skip.value.1 && skip.value.0 + skip.value.1 <= area.Length
    requires Disjoint(src.0, src.1, offO, out)
    requires skip.Some? ==> Disjoint(skip.value.0, skip.value.1, offO, out)
    modifies area
    ensures area[..] == Put(old(area[..]), offO,
                            Transform(i, out, Span(old(area[..]), src), SkipSpan(old(area[..]), skip)))
  {
    ghost var before := area[..];
    ghost var row := Transform(i, out, Span(before, src), SkipSpan(before, skip));
    assert Partly(before, offO, row, 0) == before;
    for j := 0 to out
      invariant area[..] == Partly(before, offO, row, j)
    {
      hide Partly, Span, Mix;
      SpanStays(before, area[..], src, offO, out);
      if skip.Some? {
        SpanStays(before, area[..], skip.value, offO, out);
      }
      var v := LayerByte(area, i, src, skip, j);
      area[offO + j] := v;
      PartlyNext(before, offO, row, j);
    }
    assert row[..out] == row;
  }

  class Executor {
    const cfg: Config
    var resident: Option<seq<u8>>
    var plan: ModelPlan
    const planArea: array<u8>
    var liveNextLayer: nat
    var liveActive: bool
    const slots: seq<LayeredCtx>
    // A begin that did not fit left the tables of two plans mixed.
    ghost var broken: bool

    ghost function Footprint(): set<object>
      requires |slots| == CTX_SLOTS
    {
      {this, planArea, slots[0], slots[1], slots[0].area, slots[1].area}
    }

    ghost predicate Shape() {
      && |slots| == CTX_SLOTS && slots[0] != slots[1]
      && planArea != slots[0].area && planArea != slots[1].area && slots[0].area != slots[1].area
      && planArea.Length == slots[0].area.Length == slots[1].area.Length == cfg.planMax
    }

    ghost predicate SlotOk(c: LayeredCtx)
      reads c
    {
      c.model.Some? ==>
        && Plannable(cfg, c.model.value)
        && c.liveBytes == PlanPeak(ModelOf(cfg, c.model.value)) <= c.area.Length
    }

    ghost predicate LiveOk()
      reads this
    {
      liveActive && !broken ==>
        && Plannable(cfg, plan.model)
        && Planned(plan, ModelOf(cfg, plan.model), cfg.planMax)
    }

    ghost predicate Valid()
      reads this, slots
    {
      Shape() && Tables(plan) && LiveOk() && SlotOk(slots[0]) && SlotOk(slots[1])
    }

    ghost function SlotView(c: LayeredCtx): Option<Parked>
      requires SlotOk(c)
      reads c, c.area
    {
      if c.model.None? then None else Some(Parked(c.model.value, c.nextLayer, c.area[..c.liveBytes]))
    }

    ghost function LiveView(): Live<Progress>
      reads this
    {
      if !liveActive then Idle else if broken then Broken else Running(Progress(plan.model, liveNextLayer))
    }

    ghost function View(): (r: Npu)
      requires Valid()
      reads this, planArea, slots, slots[0].area, slots[1].area
      ensures NpuValid(cfg, r)
    {
      Npu(resident, LiveView(), planArea[..], [SlotView(slots[0]), SlotView(slots[1])])
    }

    constructor (cfg: Config)
      ensures Valid() && this.cfg == cfg && fresh(Footprint())
      ensures View() == Npu(None, Idle, planArea[..], [None, None])
    {
      this.cfg := cfg;
      resident := None;
      plan := ModelPlan([], 0, 0, seq(MAX_LAYERS, _ => 0), seq(MAX_LAYERS, _ => 0), seq(MAX_LAYERS, _ => 0),
                        seq(MAX_LAYERS, _ => 0), seq(NBUF, _ => 0), seq(NBUF, _ => 0), seq(NBUF, _ => 0),
                        seq(NBUF, _ => 0), 0, 0);
      planArea := new u8[cfg.planMax](_ => 0);
      liveNextLayer, liveActive, broken := 0, false, false;
      var s0 := new LayeredCtx(cfg.planMax);
      var s1 := new LayeredCtx(cfg.planMax);
      slots := [s0, s1];
    }

    method OnLoad(data: Option<seq<u8>>)
      requires Valid()
      modifies this`resident
      ensures Valid() && View() == NpuNext(cfg, old(View()), Load(data)).0
    {
      var err, probe := ParseModel(data, cfg.actMax, plan);
      resident := if err == None then data else None;
    }

    // Parse and place into the live plan.
    method PlanLive(blob: seq<u8>) returns (err: Option<Errno>)
      requires Tables(plan)
      modifies this`plan
      ensures Tables(plan)
      ensures match Parse(Some(blob), cfg.actMax)
              case Err(e) => err == Some(e)
              case Ok(m) =>
                if Plannable(cfg, blob)
                then err == None && plan.model == blob && Planned(plan, ModelOf(cfg, blob), cfg.planMax)
                else err == Some(ENOMEM)
    {
      ghost var parsed := Parse(Some(blob), cfg.actMax);
      ParsedIsWellFormed(Some(blob), cfg.actMax);
      err, plan := ParseModel(Some(blob), cfg.actMax, plan);
      if err == None {
        err, plan := PlaceBuffers(plan, parsed.value, cfg.actMax, cfg.planMax);
      }
    }

    // A freshly planned model, in the planner's terms.
    lemma PlanStart(blob: seq<u8>)
      requires Plannable(cfg, blob) && Planned(plan, ModelOf(cfg, blob), cfg.planMax)
      ensures var m := ModelOf(cfg, blob);
              && plan.layerCount == |m.layers| && plan.inputSize == m.inputSize
              && plan.bufOff[0] == PlanOffsets(m)[0]
              && plan.bufOff[0] + plan.inputSize <= cfg.planMax
    {
      var m := ModelOf(cfg, blob);
      PeakFits(cfg, m);
      assert BufferSize(m, 0) == m.inputSize;
      assert plan.bufOff[0] == plan.bufOff[..|m.layers| + 1][0];
    }

    // The replies of begin follow from the outcome of planning.
    lemma BeginOutcome(blob: seq<u8>, err: Option<Errno>, input: Option<seq<u8>>)
      requires match Parse(Some(blob), cfg.actMax)
               case Err(e) => err == Some(e)
               case Ok(m) => err == if Plannable(cfg, blob) then None else Some(ENOMEM)
      ensures err == None <==> Plannable(cfg, blob)
      ensures err.Some? ==> BeginReply(cfg, Some(blob), input) ==
                            if err.value == ENOTSUP then Count(0) else Failed(err.value)
      ensures err == None ==> BeginReply(cfg, Some(blob), input) ==
                              if Accepts(ModelOf(cfg, blob), input) then Count(|ModelOf(cfg, blob).layers|)
                              else Failed(EINVAL)
    {
    }

    method Begin(input: Option<seq<u8>>) returns (r: Reply)
      requires Valid()
      modifies this, planArea
      ensures Valid() && resident == old(resident)
      ensures View() == NpuBegin(cfg, old(View()), input) && r == BeginReply(cfg, old(resident), input)
    {
      hide Parse, Plannable, ModelOf, Planned, Buffers, PlanOffsets, Tables;
      if resident.None? {
        hide NpuValid;
        assert BeginReply(cfg, resident, input) == Count(0);
        return Count(0);
      }
      var err := PlanLive(resident.value);
      BeginOutcome(resident.value, err, input);
      hide BeginReply;
      if err.Some? {
        broken := true;
        return if err.value == ENOTSUP then Count(0) else Failed(err.value);
      }
      PlanStart(resident.value);
      if input.None? || |input.value| != plan.inputSize {
        return Failed(EINVAL);
      }
      CopyBytes(planArea, plan.bufOff[0], input.value);
      liveNextLayer := 0;
      liveActive := true;
      broken := false;
      return Count(plan.layerCount);
    }

    lemma LiveFacts()
      requires Valid() && liveActive && !broken
      ensures Tables(plan)
      ensures var m := ModelOf(cfg, plan.model);
              && plan.layerCount == |m.layers| <= MAX_LAYERS
              && plan.plannedPeak == PlanPeak(m) <= cfg.planMax
              && plan.bufSize[|m.layers|] == BufferSize(m, |m.layers|)
              && plan.bufOff[|m.layers|] == PlanOffsets(m)[|m.layers|]
              && plan.bufOff[|m.layers|] + plan.bufSize[|m.layers|] <= cfg.planMax
    {
      var m := ModelOf(cfg, plan.model);
      PeakFits(cfg, m);
      var n := |m.layers|;
      assert Buffers(m)[n] == Buffer(plan.bufSize[n], plan.def[n], plan.last[n]);
      assert plan.bufOff[n] == plan.bufOff[..n + 1][n];
    }

    // What the tables say about layer i, in the planner's terms.
    lemma PlanEntries(i: nat)
      requires Valid() && liveActive && !broken && i < plan.layerCount
      ensures var m := ModelOf(cfg, plan.model);
              && |m.layers| == plan.layerCount
              && m.layers[i] == LayerEntry(plan, i)
              && Tables(plan) && i < MAX_LAYERS
              && 0 <= plan.srcA[i] <= i && -1 <= plan.srcB[i] <= i
              && plan.bufOff[i + 1] == PlanOffsets(m)[i + 1]
              && plan.bufOff[i + 1] + plan.outSize[i] <= cfg.planMax
    {
      var m := ModelOf(cfg, plan.model);
      PeakFits(cfg, m);
      assert plan.bufOff[i + 1] == plan.bufOff[..|m.layers| + 1][i + 1];
      assert BufferSize(m, i + 1) == plan.outSize[i];
    }

    // A source of layer i sits where the plan says, clear of the layer's output.
    lemma SourceEntry(i: nat, b: nat)
      requires Valid() && liveActive && !broken && i < plan.layerCount
      requires b == plan.srcA[i] || b == plan.srcB[i]
      ensures var m := ModelOf(cfg, plan.model);
              && b <= i < |m.layers|
              && plan.bufOff[b] == PlanOffsets(m)[b] && plan.bufSize[b] == BufferSize(m, b) > 0
              && plan.bufOff[b] + plan.bufSize[b] <= PlanPeak(m) <= cfg.planMax
              && Disjoint(plan.bufOff[b], plan.bufSize[b], plan.bufOff[i + 1], plan.outSize[i])
    {
      var m := ModelOf(cfg, plan.model);
      PlanEntries(i);
      PeakFits(cfg, m);
      SourceIsNeeded(m, cfg.actMax, i, b);
      OutputMissesNeeded(m, cfg.actMax, i, b);
      assert plan.bufOff[b] == plan.bufOff[..|m.layers| + 1][b];
      assert Buffers(m)[b] == Buffer(plan.bufSize[b], plan.def[b], plan.last[b]);
    }

    // Where layer i reads: apart from where it writes, and what the machine reads there.
    method LayerSources(i: nat) returns (src: (nat, nat), skip: Option<(nat, nat)>)
      requires Valid() && liveActive && !broken && i < plan.layerCount
      ensures plan.bufOff[i + 1] + plan.outSize[i] <= cfg.planMax
      ensures 0 < src.1 && src.0 + src.1 <= cfg.planMax && Disjoint(src.0, src.1, plan.bufOff[i + 1], plan.outSize[i])
      ensures skip.Some? ==>
        && 0 < skip.value.1 && skip.value.0 + skip.value.1 <= cfg.planMax
        && Disjoint(skip.value.0, skip.value.1, plan.bufOff[i + 1], plan.outSize[i])
      ensures LayerArea(cfg, ModelOf(cfg, plan.model), planArea[..], i) ==
              Put(planArea[..], plan.bufOff[i + 1],
                  Transform(i, plan.outSize[i], Span(planArea[..], src), SkipSpan(planArea[..], skip)))
    {
      hide Parse, Plannable, ModelOf, Buffers, PlanOffsets, PlanPeak, Planned, Transform, Disjoint, Fits, WellFormed;
      PlanEntries(i);
      SourceEntry(i, plan.srcA[i]);
      src := (plan.bufOff[plan.srcA[i]], plan.bufSize[plan.srcA[i]]);
      skip := None;
      if plan.srcB[i] >= 0 {
        SourceEntry(i, plan.srcB[i]);
        skip := Some((plan.bufOff[plan.srcB[i]], plan.bufSize[plan.srcB[i]]));
      }
    }

    method Step() returns (r: Reply)
      requires Valid() && (liveActive ==> !broken)
      modifies this, planArea
      ensures Valid() && (View(), r) == NpuStep(cfg, old(View()))
    {
      hide Parse, Plannable, ModelOf, Buffers, PlanOffsets, PlanPeak, Planned, Tables, Transform, Disjoint, WellFormed,
           Fits, LayerArea, Put, Span, SkipSpan;
      if !liveActive {
        return Failed(EPERM);
      }
      LiveFacts();
      if liveNextLayer >= plan.layerCount {
        return Failed(EPERM);
      }
      var i := liveNextLayer;
      var src, skip := LayerSources(i);
      RunLayer(planArea, i, src, skip, plan.bufOff[i + 1], plan.outSize[i]);
      liveNextLayer := liveNextLayer + 1;
      return Count(plan.layerCount - liveNextLayer);
    }

    method Remaining() returns (r: Reply)
      requires Valid() && (liveActive ==> !broken)
      ensures r == NpuNext(cfg, View(), LayeredExecutor.Op.Remaining).1
    {
      hide Parse, Plannable, ModelOf, Buffers, PlanOffsets, PlanPeak, Planned, Tables, ParkedValid, ProgressValid;
      if !liveActive {
        return Failed(EPERM);
      }
      LiveFacts();
      return Count(plan.layerCount - liveNextLayer);
    }

    method Output(out: array?<u8>, size: Option<nat>) returns (r: Result<nat>)
      requires Valid() && (liveActive ==> !broken)
      requires out != null ==> out !in Footprint() && (size.Some? ==> size.value <= out.Length)
      modifies this, out
      ensures Valid()
      ensures var capacity := if out == null then None else size;
              var (state, reply) := NpuOutput(cfg, old(View()), capacity);
              && View() == state
              && match reply
                 case Data(bytes) => r == Ok(|bytes|) && out != null && out.Length >= |bytes| && out[..|bytes|] == bytes
                 case Failed(e) => r == Err(e)
                 case _ => false
    {
      hide Parse, Plannable, ModelOf, Buffers, PlanOffsets, Planned, Tables, BufferSize;
      if !liveActive {
        return Err(EPERM);
      }
      LiveFacts();
      if liveNextLayer < plan.layerCount {
        return Err(EBUSY);
      }
      var final := plan.layerCount;
      var finalSize := plan.bufSize[final];
      if out == null || size.None? || size.value < finalSize {
        return Err(ENOMEM);
      }
      CopyBytes(out, 0, planArea[plan.bufOff[final]..plan.bufOff[final] + finalSize]);
      liveActive := false;
      return Ok(finalSize);
    }

    method Save() returns (r: Reply)
      requires Valid() && (liveActive ==> !broken)
      modifies this`liveActive, slots, slots[0].area, slots[1].area
      ensures Valid() && (View(), r) == NpuSave(cfg, old(View()))
    {
      hide Parse, Plannable, ModelOf, PlanOffsets, PlanPeak, Planned, Tables, ParkedValid, ProgressValid;
      if !liveActive {
        return Failed(EPERM);
      }
      LiveFacts();
      for s := 0 to CTX_SLOTS
        invariant forall k :: 0 <= k < s ==> slots[k].model.Some?
        invariant Valid() && liveActive && View() == old(View()) && plan == old(plan)
      {
        if slots[s].model.None? {
          assert FirstEmpty(View().slots, 0) == s;
          ParkIn(s);
          return Count(s);
        }
      }
      assert FirstEmpty(View().slots, 0) == CTX_SLOTS;
      return Failed(ENOSPC);
    }

    method ParkIn(s: nat)
      requires Valid() && liveActive && !broken && s < CTX_SLOTS && slots[s].model.None?
      requires plan.plannedPeak <= cfg.planMax
      modifies this`liveActive, slots[s], slots[s].area
      ensures Valid() && !liveActive
      ensures View() == var v := old(View());
                        v.(live := Idle,
                           slots := v.slots[s := Some(Parked(plan.model, liveNextLayer, v.area[..plan.plannedPeak]))])
    {
      hide Parse, Plannable, ModelOf, PlanOffsets, PlanPeak, Planned, Tables, ParkedValid, ProgressValid;
      LiveFacts();
      var c := slots[s];
      ghost var other := slots[1 - s];
      ghost var kept := SlotView(other);
      c.model := Some(plan.model);
      c.nextLayer := liveNextLayer;
      c.liveBytes := plan.plannedPeak;
      CopyBytes(c.area, 0, planArea[..plan.plannedPeak]);
      liveActive := false;
      assert c.area[..c.liveBytes] == planArea[..plan.plannedPeak];
      assert SlotView(other) == kept;
    }

    // The resumed session: the slot's copy goes back, and the slot is free again.
    method Resume(slot: nat)
      requires Valid() && slot < CTX_SLOTS && slots[slot].model.Some? && Tables(plan)
      requires plan.model == slots[slot].model.value && Planned(plan, ModelOf(cfg, plan.model), cfg.planMax)
      modifies this, planArea, slots[slot]
      ensures Valid() && resident == old(resident)
      ensures View() == var v := old(View());
                        var p := v.slots[slot].value;
                        v.(area := Put(v.area, 0, p.saved), live := Running(Progress(p.blob, p.next)),
                           slots := v.slots[slot := None])
    {
      hide Parse, Plannable, ModelOf, PlanOffsets, PlanPeak, Planned, Tables, ParkedValid, ProgressValid;
      var c := slots[slot];
      ghost var other := slots[1 - slot];
      ghost var kept := SlotView(other);
      CopyBytes(planArea, 0, c.area[..c.liveBytes]);
      liveNextLayer := c.nextLayer;
      liveActive := true;
      broken := false;
      c.model := None;
      assert SlotView(other) == kept;
    }

    method Restore(slot: int) returns (r: Reply)
      requires Valid()
      modifies this, planArea, slots
      ensures Valid() && (View(), r) == NpuRestore(cfg, old(View()), slot)
    {
      hide Parse, PlanOffsets, PlanPeak, Planned, Tables;
      if slot < 0 || slot >= CTX_SLOTS || slots[slot].model.None? {
        return Failed(EINVAL);
      }
      var err := PlanLive(slots[slot].model.value);
      assert err == None by {
        BeginOutcome(slots[slot].model.value, err, None);
      }
      if err.Some? {
        return Failed(EINVAL);
      }
      broken := true;
      Resume(slot);
      return Done;
    }

    method SlotFree(slot: int)
      requires Valid()
      modifies slots
      ensures Valid() && View() == NpuNext(cfg, old(View()), LayeredExecutor.Op.SlotFree(slot)).0
    {
      hide Parse, Plannable, ModelOf, PlanOffsets, PlanPeak, Planned, Tables, ParkedValid, ProgressValid;
      if 0 <= slot < CTX_SLOTS {
        ghost var other := slots[1 - slot];
        ghost var kept := SlotView(other);
        slots[slot].model := None;
        assert SlotView(other) == kept;
      }
    }
  }
}
