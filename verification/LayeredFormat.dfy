// The two layered blob formats: "SYNL" chains and "SYND" graphs.
//
// Parse is the meaning of a blob; ParseModel is the loop that fills the plan
// record in place; MakeModel and MakeDag write blobs into a caller's buffer.
module LayeredFormat {
  import opened Errno
  import opened Bytes

  const MAGIC: u32 := 0x4C4E5953
  const DAG_MAGIC: u32 := 0x444E5953
  const HDR_SIZE := 8
  const DESC_SIZE := 4
  const DDESC_SIZE := 8
  const MAX_LAYERS := 16
  const NBUF := 17

  const SRC_PREV: i16 := -1
  const SRC_INPUT: i16 := -2
  const SRC_NONE: i16 := -3

  // One layer with its sources resolved to buffers: buffer 0 is the model input,
  // buffer i + 1 the output of layer i, and srcB is -1 when there is no skip source.
  datatype Layer = Layer(outSize: nat, work: nat, srcA: int, srcB: int)

  datatype Model = Model(inputSize: nat, layers: seq<Layer>)

  // A layer as make_dag's caller describes it.
  datatype DagLayer = DagLayer(outSize: u16, work: u16, srcA: i16, srcB: i16)

  // What the planner and the executor rely on: every source of layer i is a buffer
  // defined before layer i runs.
  predicate WellFormed(m: Model, actMax: nat) {
    && 1 <= |m.layers| <= MAX_LAYERS
    && 1 <= m.inputSize <= actMax
    && forall i :: 0 <= i < |m.layers| ==>
         && 1 <= m.layers[i].outSize <= actMax
         && 0 <= m.layers[i].srcA <= i
         && -1 <= m.layers[i].srcB <= i
  }

  function ResolveSrc(raw: i16, i: nat, allowNone: bool): Result<int> {
    if raw == SRC_NONE then
      if allowNone then Ok(-1) else Err(EINVAL)
    else if raw == SRC_PREV then Ok(i)
    else if raw == SRC_INPUT then Ok(0)
    else if 0 <= raw < i then Ok(raw + 1)
    else Err(EINVAL)
  }

  function Resolve(d: DagLayer, i: nat, actMax: nat): Result<Layer> {
    if d.outSize == 0 || d.outSize > actMax then Err(EINVAL)
    else match (ResolveSrc(d.srcA, i, false), ResolveSrc(d.srcB, i, true))
      case (Ok(a), Ok(b)) => Ok(Layer(d.outSize, d.work, a, b))
      case _ => Err(EINVAL)
  }

  function DescSize(dag: bool): nat {
    if dag then DDESC_SIZE else DESC_SIZE
  }

  // The descriptor of layer i, with the chain format's implied sources filled in.
  function RawLayer(data: seq<u8>, dag: bool, i: nat): DagLayer
    requires |data| >= HDR_SIZE + (i + 1) * DescSize(dag)
  {
    var d := HDR_SIZE + i * DescSize(dag);
    DagLayer(Rd16(data, d), Rd16(data, d + 2),
             if dag then Rds16(data, d + 4) else SRC_PREV,
             if dag then Rds16(data, d + 6) else SRC_NONE)
  }

  lemma DescInside(size: nat, n: nat, i: nat, dag: bool)
    requires i < n && size >= HDR_SIZE + n * DescSize(dag)
    ensures size >= HDR_SIZE + (i + 1) * DescSize(dag)
  {
  }

  function ResolvedAt(data: seq<u8>, dag: bool, n: nat, i: nat, actMax: nat): Result<Layer>
    requires i < n && |data| >= HDR_SIZE + n * DescSize(dag)
  {
    DescInside(|data|, n, i, dag);
    Resolve(RawLayer(data, dag, i), i, actMax)
  }

  // The meaning of a blob. None stands for the NULL pointer.
  function Parse(data: Option<seq<u8>>, actMax: nat): Result<Model> {
    if data.None? || |data.value| < HDR_SIZE then Err(ENOTSUP)
    else
      var d := data.value;
      var dag := Rd32(d, 0) == DAG_MAGIC;
      var n, input := Rd16(d, 4), Rd16(d, 6);
      if !dag && Rd32(d, 0) != MAGIC then Err(ENOTSUP)
      else if n == 0 || n > MAX_LAYERS || input == 0 || input > actMax then Err(EINVAL)
      else if |d| < HDR_SIZE + n * DescSize(dag) then Err(EINVAL)
      else if exists i :: 0 <= i < n && ResolvedAt(d, dag, n, i, actMax).Err? then Err(EINVAL)
      else Ok(Model(input, seq(n, i requires 0 <= i < n =>
                                 match ResolvedAt(d, dag, n, i, actMax)
                                 case Ok(l) => l
                                 case Err(_) => Layer(0, 0, 0, 0))))
  }

  lemma ResolvedIsWellFormed(d: DagLayer, i: nat, actMax: nat)
    ensures match Resolve(d, i, actMax)
            case Ok(l) => 1 <= l.outSize <= actMax && 0 <= l.srcA <= i && -1 <= l.srcB <= i
            case Err(_) => true
  {
  }

  // A descriptor is accepted exactly when its size is in range and each source is -1, the
  // predecessor, -2, the model input, or the number of an earlier layer; only the second
  // may be -3, none. Buffer 0 is the input and buffer k + 1 what layer k writes.
  lemma ResolveIff(d: DagLayer, i: nat, actMax: nat)
    ensures var r := Resolve(d, i, actMax);
            && (r.Ok? <==> 1 <= d.outSize <= actMax && (-2 <= d.srcA < i) && (-3 <= d.srcB < i))
            && (r.Ok? ==>
                  && r.value.outSize == d.outSize && r.value.work == d.work
                  && r.value.srcA == BufferRead(d.srcA, i) && r.value.srcB == BufferRead(d.srcB, i))
            && (r.Err? ==> r.error == EINVAL)
  {
  }

  function BufferRead(raw: int, i: nat): int {
    match raw
    case -3 => -1
    case -2 => 0
    case -1 => i
    case _ => raw + 1
  }

  // An accepted blob's layers are the resolved ones.
  lemma ParsedLayer(data: Option<seq<u8>>, actMax: nat, i: nat)
    requires Parse(data, actMax).Ok? && i < |Parse(data, actMax).value.layers|
    ensures var m, d := Parse(data, actMax).value, data.value;
            && |m.layers| <= MAX_LAYERS
            && |d| >= HDR_SIZE + |m.layers| * DescSize(Rd32(d, 0) == DAG_MAGIC)
            && ResolvedAt(d, Rd32(d, 0) == DAG_MAGIC, |m.layers|, i, actMax) == Ok(m.layers[i])
  {
    hide ResolvedAt;
    var m, d := Parse(data, actMax).value, data.value;
    assert !ResolvedAt(d, Rd32(d, 0) == DAG_MAGIC, |m.layers|, i, actMax).Err?;
  }

  lemma ParsedIsWellFormed(data: Option<seq<u8>>, actMax: nat)
    ensures Parse(data, actMax).Ok? ==> WellFormed(Parse(data, actMax).value, actMax)
  {
    hide Resolve, RawLayer, Rd16, Rd32;
    if Parse(data, actMax).Ok? {
      var m, d := Parse(data, actMax).value, data.value;
      var dag := Rd32(d, 0) == DAG_MAGIC;
      assert 1 <= |m.layers| <= MAX_LAYERS && 1 <= m.inputSize <= actMax;
      hide Parse;
      forall i | 0 <= i < |m.layers|
        ensures 1 <= m.layers[i].outSize <= actMax
        ensures 0 <= m.layers[i].srcA <= i && -1 <= m.layers[i].srcB <= i
      {
        ParsedLayer(data, actMax, i);
        DescInside(|d|, |m.layers|, i, dag);
        ResolvedIsWellFormed(RawLayer(d, dag, i), i, actMax);
      }
    }
  }

  // struct model_plan: fixed-size tables of which the first layerCount (or
  // layerCount + 1) entries are meaningful; the rest is left over from older models.
  datatype ModelPlan = ModelPlan(
    model: seq<u8>,
    layerCount: nat,
    inputSize: nat,
    outSize: seq<nat>,
    work: seq<nat>,
    srcA: seq<int>,
    srcB: seq<int>,
    bufSize: seq<nat>,
    bufOff: seq<nat>,
    def: seq<int>,
    last: seq<int>,
    plannedPeak: nat,
    naivePeak: nat)

  predicate Tables(p: ModelPlan) {
    && |p.outSize| == |p.work| == |p.srcA| == |p.srcB| == MAX_LAYERS
    && |p.bufSize| == |p.bufOff| == |p.def| == |p.last| == NBUF
  }

  // The layer tables of p describe model m.
  predicate Describes(p: ModelPlan, m: Model) {
    && Tables(p)
    && p.layerCount == |m.layers| <= MAX_LAYERS
    && p.inputSize == m.inputSize
    && forall i :: 0 <= i < |m.layers| ==>
         m.layers[i] == Layer(p.outSize[i], p.work[i], p.srcA[i], p.srcB[i])
  }

  method ParseModel(data: Option<seq<u8>>, actMax: nat, p0: ModelPlan)
    returns (err: Option<Errno>, p: ModelPlan)
    requires Tables(p0)
    ensures Tables(p)
    ensures match Parse(data, actMax)
            case Ok(m) => err == None && Describes(p, m) && data == Some(p.model)
            case Err(e) => err == Some(e)
  {
    p := p0;
    if data.None? || |data.value| < HDR_SIZE {
      return Some(ENOTSUP), p;
    }
    var d := data.value;
    var magic := Rd32(d, 0);
    var dag := magic == DAG_MAGIC;
    if !dag && magic != MAGIC {
      return Some(ENOTSUP), p;
    }
    var n, input := Rd16(d, 4), Rd16(d, 6);
    var desc := DescSize(dag);
    if n == 0 || n > MAX_LAYERS || input == 0 || input > actMax {
      return Some(EINVAL), p;
    }
    if |d| < HDR_SIZE + n * desc {
      return Some(EINVAL), p;
    }
    p := p.(model := d, layerCount := n, inputSize := input);
    for i := 0 to n
      invariant Tables(p) && p.model == d && p.layerCount == n && p.inputSize == input
      invariant forall k :: 0 <= k < i ==> ResolvedAt(d, dag, n, k, actMax) == Ok(LayerEntry(p, k))
    {
      DescInside(|d|, n, i, dag);
      var ok;
      ok, p := ParseLayer(d, dag, i, actMax, p);
      if !ok {
        assert ResolvedAt(d, dag, n, i, actMax).Err?;
        return Some(EINVAL), p;
      }
    }
    err := None;
  }

  function LayerEntry(p: ModelPlan, i: nat): Layer
    requires Tables(p) && i < MAX_LAYERS
  {
    Layer(p.outSize[i], p.work[i], p.srcA[i], p.srcB[i])
  }

  // One round of the parsing loop: fills entry i of the layer tables.
  method ParseLayer(d: seq<u8>, dag: bool, i: nat, actMax: nat, p0: ModelPlan)
    returns (ok: bool, p: ModelPlan)
    requires Tables(p0) && i < MAX_LAYERS && |d| >= HDR_SIZE + (i + 1) * DescSize(dag)
    ensures Tables(p) && p == p0.(outSize := p.outSize, work := p.work, srcA := p.srcA, srcB := p.srcB)
    ensures forall k :: 0 <= k < i ==> LayerEntry(p, k) == LayerEntry(p0, k)
    ensures ok <==> Resolve(RawLayer(d, dag, i), i, actMax).Ok?
    ensures ok ==> Resolve(RawLayer(d, dag, i), i, actMax) == Ok(LayerEntry(p, i))
  {
    var at := HDR_SIZE + i * DescSize(dag);
    p := p0.(outSize := p0.outSize[i := Rd16(d, at)], work := p0.work[i := Rd16(d, at + 2)]);
    if p.outSize[i] == 0 || p.outSize[i] > actMax {
      return false, p;
    }
    var a := ResolveSrc(if dag then Rds16(d, at + 4) else SRC_PREV, i, false);
    var b := ResolveSrc(if dag then Rds16(d, at + 6) else SRC_NONE, i, true);
    if a.Err? || b.Err? {
      return false, p;
    }
    p := p.(srcA := p.srcA[i := a.value], srcB := p.srcB[i := b.value]);
    ok := true;
  }

  // ---- writing blobs ----

  function Header(magic: u32, layerCount: u16, inputSize: u16): (r: seq<u8>)
    ensures |r| == HDR_SIZE
  {
    Le32(magic) + Le16(layerCount) + Le16(inputSize)
  }

  function Desc(dag: bool, l: DagLayer): (r: seq<u8>)
    ensures |r| == DescSize(dag)
  {
    Le16(l.outSize) + Le16(l.work) + if dag then Le16(AsU16(l.srcA)) + Le16(AsU16(l.srcB)) else []
  }

  function Descs(dag: bool, ls: seq<DagLayer>): (r: seq<u8>)
    ensures |r| == |ls| * DescSize(dag)
  {
    if ls == [] then [] else Descs(dag, ls[..|ls| - 1]) + Desc(dag, ls[|ls| - 1])
  }

  function Blob(dag: bool, inputSize: u16, ls: seq<DagLayer>): seq<u8>
    requires |ls| <= MAX_LAYERS
  {
    Header(if dag then DAG_MAGIC else MAGIC, |ls|, inputSize) + Descs(dag, ls)
  }

  // What make_model writes is the descriptor part of these layers.
  function ChainLayers(outSizes: seq<u16>, work: Option<seq<u16>>): (r: seq<DagLayer>)
    requires work.Some? ==> |work.value| >= |outSizes|
    ensures |r| == |outSizes|
  {
    seq(|outSizes|, i requires 0 <= i < |outSizes| =>
      DagLayer(outSizes[i], if work.Some? then work.value[i] else 0, SRC_PREV, SRC_NONE))
  }

  lemma {:induction false} DescsAt(dag: bool, ls: seq<DagLayer>, k: nat)
    requires k < |ls|
    ensures |Descs(dag, ls)| >= (k + 1) * DescSize(dag)
    ensures Descs(dag, ls)[k * DescSize(dag)..(k + 1) * DescSize(dag)] == Desc(dag, ls[k])
  {
    var n := |ls| - 1;
    if k < n {
      DescsAt(dag, ls[..n], k);
      assert ls[..n][k] == ls[k];
    }
  }

  lemma HeaderReads(h: seq<u8>, magic: u32, n: u16, input: u16)
    requires |h| >= HDR_SIZE && h[..HDR_SIZE] == Header(magic, n, input)
    ensures Rd32(h, 0) == magic && Rd16(h, 4) == n && Rd16(h, 6) == input
  {
    hide Le16, Le32;
    var g := h[..HDR_SIZE];
    assert g == Le32(magic) + Le16(n) + Le16(input);
    assert g[0..4] == Le32(magic) && g[4..6] == Le16(n) && g[6..8] == Le16(input);
    assert h[0..4] == g[0..4] && h[4..6] == g[4..6] && h[6..8] == g[6..8];
    Rd32OfLe32(h, 0, magic);
    Rd16At(h, 4, n);
    Rd16At(h, 6, input);
  }

  lemma Rd16At(p: seq<u8>, at: nat, v: u16)
    requires at + 2 <= |p| && p[at..at + 2] == Le16(v)
    ensures Rd16(p, at) == v
  {
    assert p[at..at + 2][0] == p[at] && p[at..at + 2][1] == p[at + 1];
  }

  lemma RawLayerReads(data: seq<u8>, dag: bool, i: nat, l: DagLayer)
    requires |data| >= HDR_SIZE + (i + 1) * DescSize(dag)
    requires data[HDR_SIZE + i * DescSize(dag)..HDR_SIZE + (i + 1) * DescSize(dag)] == Desc(dag, l)
    requires dag || (l.srcA == SRC_PREV && l.srcB == SRC_NONE)
    ensures RawLayer(data, dag, i) == l
  {
    var at := HDR_SIZE + i * DescSize(dag);
    var w := data[at..at + DescSize(dag)];
    assert w[0] == data[at] && w[1] == data[at + 1] && w[2] == data[at + 2] && w[3] == data[at + 3];
    if dag {
      assert w[4] == data[at + 4] && w[5] == data[at + 5] && w[6] == data[at + 6] && w[7] == data[at + 7];
    }
  }

  lemma BlobReads(dag: bool, input: u16, ls: seq<DagLayer>, tail: seq<u8>, i: nat)
    requires i < |ls| <= MAX_LAYERS
    requires dag || (ls[i].srcA == SRC_PREV && ls[i].srcB == SRC_NONE)
    ensures var d := Blob(dag, input, ls) + tail;
            |d| >= HDR_SIZE + (i + 1) * DescSize(dag) && RawLayer(d, dag, i) == ls[i]
  {
    var d := Blob(dag, input, ls) + tail;
    DescsAt(dag, ls, i);
    var lo, hi := i * DescSize(dag), (i + 1) * DescSize(dag);
    assert d[HDR_SIZE + lo..HDR_SIZE + hi] == Descs(dag, ls)[lo..hi];
    RawLayerReads(d, dag, i, ls[i]);
  }

  // Both writers produce blobs that parse back to exactly the resolved layers,
  // whatever bytes follow the blob.
  lemma BlobParses(dag: bool, input: u16, ls: seq<DagLayer>, tail: seq<u8>, actMax: nat)
    requires 1 <= |ls| <= MAX_LAYERS && 1 <= input <= actMax
    requires dag || forall i :: 0 <= i < |ls| ==> ls[i].srcA == SRC_PREV && ls[i].srcB == SRC_NONE
    ensures var r := Parse(Some(Blob(dag, input, ls) + tail), actMax);
            if forall i :: 0 <= i < |ls| ==> Resolve(ls[i], i, actMax).Ok? then
              && r.Ok? && r.value.inputSize == input && |r.value.layers| == |ls|
              && forall i :: 0 <= i < |ls| ==> Ok(r.value.layers[i]) == Resolve(ls[i], i, actMax)
            else r == Err(EINVAL)
  {
    hide Header, RawLayer, Resolve, Rd16, Rd32;
    var d := Blob(dag, input, ls) + tail;
    var magic := if dag then DAG_MAGIC else MAGIC;
    assert d[..HDR_SIZE] == Header(magic, |ls|, input);
    HeaderReads(d, magic, |ls|, input);
    forall i | 0 <= i < |ls|
      ensures ResolvedAt(d, dag, |ls|, i, actMax) == Resolve(ls[i], i, actMax)
    {
      BlobReads(dag, input, ls, tail, i);
    }
  }

  // A chain is the graph in which every layer reads its predecessor and skips nothing.
  lemma ChainIsDag(input: u16, outSizes: seq<u16>, work: Option<seq<u16>>, actMax: nat)
    requires work.Some? ==> |work.value| >= |outSizes|
    requires 1 <= |outSizes| <= MAX_LAYERS && 1 <= input <= actMax
    ensures var ls := ChainLayers(outSizes, work);
            Parse(Some(Blob(false, input, ls)), actMax) == Parse(Some(Blob(true, input, ls)), actMax)
  {
    var ls := ChainLayers(outSizes, work);
    BlobParses(false, input, ls, [], actMax);
    BlobParses(true, input, ls, [], actMax);
    assert Blob(false, input, ls) + [] == Blob(false, input, ls);
    assert Blob(true, input, ls) + [] == Blob(true, input, ls);
    var c, g := Parse(Some(Blob(false, input, ls)), actMax), Parse(Some(Blob(true, input, ls)), actMax);
    if c.Ok? {
      forall i | 0 <= i < |ls| ensures c.value.layers[i] == g.value.layers[i] {
        assert Ok(c.value.layers[i]) == Resolve(ls[i], i, actMax);
      }
      assert c.value.layers == g.value.layers;
    }
  }

  method WriteHeader(buf: array<u8>, magic: u32, layerCount: u16, inputSize: u16)
    requires buf.Length >= HDR_SIZE
    modifies buf
    ensures buf[..HDR_SIZE] == Header(magic, layerCount, inputSize)
    ensures forall k :: HDR_SIZE <= k < buf.Length ==> buf[k] == old(buf[k])
  {
    buf[0] := magic % 0x100;
    buf[1] := magic / 0x100 % 0x100;
    buf[2] := magic / 0x1_0000 % 0x100;
    buf[3] := magic / 0x100_0000;
    Wr16(buf, 4, layerCount);
    Wr16(buf, 6, inputSize);
  }

  method Wr16(p: array<u8>, at: nat, v: u16)
    requires at + 2 <= p.Length
    modifies p
    ensures p[..] == old(p[..at]) + Le16(v) + old(p[at + 2..])
  {
    p[at] := v % 0x100;
    p[at + 1] := v / 0x100;
  }

  // The outcome of either writer, given the size the blob would have.
  ghost predicate WriterReturns(r: Result<nat>, capacity: Option<nat>, total: nat, inputSize: u16,
                                ls: Option<seq<DagLayer>>, actMax: nat)
  {
    r == if capacity == None || ls == None || ls.value == [] || |ls.value| > MAX_LAYERS ||
            inputSize == 0 || inputSize > actMax then Err(EINVAL)
         else if capacity.value < total then Err(ENOMEM)
         else if exists i :: 0 <= i < |ls.value| && Resolve(ls.value[i], i, actMax).Err? then Err(EINVAL)
         else Ok(total)
  }

  method MakeModel(buf: array?<u8>, inputSize: u16, layerCount: u16,
                   outSizes: Option<seq<u16>>, work: Option<seq<u16>>, actMax: nat)
    returns (r: Result<nat>)
    requires outSizes.Some? ==> |outSizes.value| == layerCount
    requires outSizes.Some? && work.Some? ==> |work.value| >= layerCount
    modifies buf
    ensures WriterReturns(r, if buf == null then None else Some(buf.Length),
                          HDR_SIZE + layerCount * DESC_SIZE, inputSize,
                          if outSizes == None then None else Some(ChainLayers(outSizes.value, work)), actMax)
    ensures r.Ok? ==> buf[..r.value] == Blob(false, inputSize, ChainLayers(outSizes.value, work)) &&
                      forall k :: r.value <= k < buf.Length ==> buf[k] == old(buf[k])
  {
    if buf == null || outSizes == None || layerCount == 0 || layerCount > MAX_LAYERS ||
       inputSize == 0 || inputSize > actMax {
      return Err(EINVAL);
    }
    var total := HDR_SIZE + layerCount * DESC_SIZE;
    if buf.Length < total {
      return Err(ENOMEM);
    }
    var bad := WriteChain(buf, inputSize, layerCount, outSizes.value, work, actMax);
    return if bad then Err(EINVAL) else Ok(total);
  }

  lemma ChainResolves(outSizes: seq<u16>, work: Option<seq<u16>>, i: nat, actMax: nat)
    requires i < |outSizes| && (work.Some? ==> |work.value| >= |outSizes|)
    ensures Resolve(ChainLayers(outSizes, work)[i], i, actMax).Ok? <==> 0 < outSizes[i] <= actMax
  {
  }

  method WriteChain(buf: array<u8>, inputSize: u16, layerCount: u16, outSizes: seq<u16>,
                    work: Option<seq<u16>>, actMax: nat)
    returns (bad: bool)
    requires layerCount == |outSizes| <= MAX_LAYERS && (work.Some? ==> |work.value| >= layerCount)
    requires buf.Length >= HDR_SIZE + layerCount * DESC_SIZE
    modifies buf
    ensures forall k :: HDR_SIZE + layerCount * DESC_SIZE <= k < buf.Length ==> buf[k] == old(buf[k])
    ensures var ls := ChainLayers(outSizes, work);
            if bad then exists i :: 0 <= i < |ls| && Resolve(ls[i], i, actMax).Err?
            else (forall i :: 0 <= i < |ls| ==> Resolve(ls[i], i, actMax).Ok?) &&
                 buf[..HDR_SIZE + layerCount * DESC_SIZE] == Blob(false, inputSize, ls)
  {
    ghost var ls := ChainLayers(outSizes, work);
    WriteHeader(buf, MAGIC, layerCount, inputSize);
    hide Header, Desc, Resolve;
    for i := 0 to layerCount
      invariant buf[..HDR_SIZE + i * DESC_SIZE] == Written(false, inputSize, ls, i)
      invariant forall k :: HDR_SIZE + layerCount * DESC_SIZE <= k < buf.Length ==> buf[k] == old(buf[k])
      invariant forall k :: 0 <= k < i ==> Resolve(ls[k], k, actMax).Ok?
    {
      ChainResolves(outSizes, work, i, actMax);
      if outSizes[i] == 0 || outSizes[i] > actMax {
        return true;
      }
      WriteChainDesc(buf, HDR_SIZE + i * DESC_SIZE, outSizes[i], if work.Some? then work.value[i] else 0);
      WrittenExtends(false, inputSize, ls, i);
    }
    assert ls[..layerCount] == ls;
    bad := false;
  }

  // The blob's first i descriptors: the loops of both writers extend it by one.
  function Written(dag: bool, inputSize: u16, ls: seq<DagLayer>, i: nat): (r: seq<u8>)
    requires i <= |ls| <= MAX_LAYERS
    ensures |r| == HDR_SIZE + i * DescSize(dag)
  {
    Header(if dag then DAG_MAGIC else MAGIC, |ls|, inputSize) + Descs(dag, ls[..i])
  }

  lemma WrittenExtends(dag: bool, inputSize: u16, ls: seq<DagLayer>, i: nat)
    requires i < |ls| <= MAX_LAYERS
    ensures Written(dag, inputSize, ls, i + 1) == Written(dag, inputSize, ls, i) + Desc(dag, ls[i])
  {
    assert ls[..i + 1][..i] == ls[..i];
  }

  method WriteChainDesc(buf: array<u8>, at: nat, outSize: u16, work: u16)
    requires at + DESC_SIZE <= buf.Length
    modifies buf
    ensures buf[..at + DESC_SIZE] == old(buf[..at]) + Desc(false, DagLayer(outSize, work, SRC_PREV, SRC_NONE))
    ensures forall k :: at + DESC_SIZE <= k < buf.Length ==> buf[k] == old(buf[k])
  {
    Wr16(buf, at, outSize);
    Wr16(buf, at + 2, work);
  }

  method WriteDagDesc(buf: array<u8>, at: nat, l: DagLayer)
    requires at + DDESC_SIZE <= buf.Length
    modifies buf
    ensures buf[..at + DDESC_SIZE] == old(buf[..at]) + Desc(true, l)
    ensures forall k :: at + DDESC_SIZE <= k < buf.Length ==> buf[k] == old(buf[k])
  {
    Wr16(buf, at, l.outSize);
    Wr16(buf, at + 2, l.work);
    Wr16(buf, at + 4, AsU16(l.srcA));
    Wr16(buf, at + 6, AsU16(l.srcB));
  }

  method MakeDag(buf: array?<u8>, inputSize: u16, layerCount: u16,
                 layers: Option<seq<DagLayer>>, actMax: nat)
    returns (r: Result<nat>)
    requires layers.Some? ==> |layers.value| == layerCount
    modifies buf
    ensures WriterReturns(r, if buf == null then None else Some(buf.Length),
                          HDR_SIZE + layerCount * DDESC_SIZE, inputSize, layers, actMax)
    ensures r.Ok? ==> buf[..r.value] == Blob(true, inputSize, layers.value) &&
                      forall k :: r.value <= k < buf.Length ==> buf[k] == old(buf[k])
  {
    if buf == null || layers == None || layerCount == 0 || layerCount > MAX_LAYERS ||
       inputSize == 0 || inputSize > actMax {
      return Err(EINVAL);
    }
    var total := HDR_SIZE + layerCount * DDESC_SIZE;
    if buf.Length < total {
      return Err(ENOMEM);
    }
    var bad := WriteDag(buf, inputSize, layerCount, layers.value, actMax);
    return if bad then Err(EINVAL) else Ok(total);
  }

  method RefusesLayer(l: DagLayer, i: nat, actMax: nat) returns (bad: bool)
    ensures bad <==> Resolve(l, i, actMax).Err?
  {
    bad := l.outSize == 0 || l.outSize > actMax ||
           ResolveSrc(l.srcA, i, false).Err? || ResolveSrc(l.srcB, i, true).Err?;
  }

  method WriteDag(buf: array<u8>, inputSize: u16, layerCount: u16, layers: seq<DagLayer>, actMax: nat)
    returns (bad: bool)
    requires layerCount == |layers| <= MAX_LAYERS
    requires buf.Length >= HDR_SIZE + layerCount * DDESC_SIZE
    modifies buf
    ensures forall k :: HDR_SIZE + layerCount * DDESC_SIZE <= k < buf.Length ==> buf[k] == old(buf[k])
    ensures if bad then exists i :: 0 <= i < |layers| && Resolve(layers[i], i, actMax).Err?
            else (forall i :: 0 <= i < |layers| ==> Resolve(layers[i], i, actMax).Ok?) &&
                 buf[..HDR_SIZE + layerCount * DDESC_SIZE] == Blob(true, inputSize, layers)
  {
    WriteHeader(buf, DAG_MAGIC, layerCount, inputSize);
    hide Header, Desc, Resolve;
    for i := 0 to layerCount
      invariant buf[..HDR_SIZE + i * DDESC_SIZE] == Written(true, inputSize, layers, i)
      invariant forall k :: HDR_SIZE + layerCount * DDESC_SIZE <= k < buf.Length ==> buf[k] == old(buf[k])
      invariant forall k :: 0 <= k < i ==> Resolve(layers[k], k, actMax).Ok?
    {
      bad := RefusesLayer(layers[i], i, actMax);
      if bad {
        return;
      }
      WriteDagDesc(buf, HDR_SIZE + i * DDESC_SIZE, layers[i]);
      WrittenExtends(true, inputSize, layers, i);
    }
    assert layers[..layerCount] == layers;
    bad := false;
  }
}
