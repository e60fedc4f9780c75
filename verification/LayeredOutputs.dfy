// What layers compute: the arithmetic of a layer as a function of its sources, and what a
// session that nobody disturbs hands out.
module LayeredOutputs {
  import opened Errno
  import opened Bytes
  import opened LayeredFormat
  import opened LayeredPlanner
  import opened LayeredExecutor

  // ---- one layer as a function of its sources ----

  predicate Zeros(a: seq<u8>) {
    forall k :: 0 <= k < |a| ==> a[k] == 0
  }

  predicate Sources(a: seq<u8>, b: Option<seq<u8>>) {
    |a| > 0 && (b.Some? ==> |b.value| > 0)
  }

  function Raised(a: seq<u8>, p: nat, d: u8): (r: seq<u8>)
    requires p < |a|
    ensures |r| == |a|
  {
    a[p := (a[p] + d) % 0x100]
  }

  // Silent sources leave the layer index and the position.
  lemma ZeroSources(i: nat, n: nat, a: seq<u8>, b: Option<seq<u8>>, j: nat)
    requires Sources(a, b) && Zeros(a) && (b.Some? ==> Zeros(b.value)) && j < n
    ensures Transform(i, n, a, b)[j] == (13 * i + 3 * j) % 0x100
  {
  }

  // Wrapping a byte before it is weighed or only at the end makes no difference.
  lemma WrapLater(x: int, c: nat, u: u8, d: u8)
    ensures (x + c * ((u + d) % 0x100)) % 0x100 == ((x + c * u) % 0x100 + c * d) % 0x100
  {
    var q := (u + d) / 0x100;
    assert (u + d) % 0x100 == u + d - 0x100 * q;
    var qc := q * c;
    assert c * (u + d - 0x100 * q) == c * u + c * d - 0x100 * qc;
  }

  // A byte of the primary source weighs 31 where the position points, and 1 where seven
  // times the position plus the layer index does; no other byte of it matters.
  lemma PrimaryWeighs(i: nat, n: nat, a: seq<u8>, b: Option<seq<u8>>, p: nat, d: u8, j: nat)
    requires Sources(a, b) && p < |a| && j < n
    ensures var weight := (if p == j % |a| then 31 else 0) + (if p == (j * 7 + i) % |a| then 1 else 0);
            Transform(i, n, Raised(a, p, d), b)[j] == (Transform(i, n, a, b)[j] + weight * d) % 0x100
  {
    hide Mix;
    var direct, far := j % |a|, (j * 7 + i) % |a|;
    var r := Raised(a, p, d);
    var rest: int := i * 13 + j * 3 + if b.Some? then b.value[j % |b.value|] as int * 17 else 0;
    MixParts(i, a, b, j, rest);
    MixParts(i, r, b, j, rest);
    WeighTwo(rest, a[direct], a[far], d, p == direct, p == far);
  }

  lemma WeighTwo(x: int, u: u8, v: u8, d: u8, first: bool, second: bool)
    requires first && second ==> u == v
    ensures var weight := (if first then 31 else 0) + (if second then 1 else 0);
            (31 * (if first then (u + d) % 0x100 else u) + (if second then (v + d) % 0x100 else v) + x) % 0x100 ==
            ((31 * u + v + x) % 0x100 + weight * d) % 0x100
  {
    if first && second {
      WrapLater(x, 32, u, d);
    } else if first {
      WrapLater(x + v, 31, u, d);
    } else if second {
      WrapLater(x + 31 * u, 1, v, d);
    }
  }

  lemma MixParts(i: nat, a: seq<u8>, b: Option<seq<u8>>, j: nat, rest: int)
    requires Sources(a, b)
    requires rest == i * 13 + j * 3 + if b.Some? then b.value[j % |b.value|] as int * 17 else 0
    ensures Mix(i, a, b, j) == (31 * a[j % |a|] as int + a[(j * 7 + i) % |a|] as int + rest) % 0x100
  {
  }

  // A byte of the skip source weighs 17 where the position points, and nothing elsewhere.
  lemma SkipWeighs(i: nat, n: nat, a: seq<u8>, b: seq<u8>, p: nat, d: u8, j: nat)
    requires Sources(a, Some(b)) && p < |b| && j < n
    ensures var weight := if p == j % |b| then 17 else 0;
            Transform(i, n, a, Some(Raised(b, p, d)))[j] == (Transform(i, n, a, Some(b))[j] + weight * d) % 0x100
  {
    var at := j % |b|;
    var rest: int := a[j % |a|] as int * 31 + a[(j * 7 + i) % |a|] as int + i * 13 + j * 3;
    hide Mix;
    var r := Raised(b, p, d);
    SkipParts(i, a, b, j, rest);
    SkipParts(i, a, r, j, rest);
    WeighOne(rest, b[at], d, p == at);
  }

  lemma WeighOne(x: int, u: u8, d: u8, hit: bool)
    ensures (x + 17 * (if hit then (u + d) % 0x100 else u)) % 0x100 ==
            ((x + 17 * u) % 0x100 + (if hit then 17 else 0) * d) % 0x100
  {
    if hit {
      WrapLater(x, 17, u, d);
    }
  }

  lemma SkipParts(i: nat, a: seq<u8>, b: seq<u8>, j: nat, rest: int)
    requires Sources(a, Some(b)) && rest == a[j % |a|] as int * 31 + a[(j * 7 + i) % |a|] as int + i * 13 + j * 3
    ensures Mix(i, a, Some(b), j) == (rest + 17 * b[j % |b|] as int) % 0x100
  {
  }

  // No skip source is the same as a silent one.
  lemma NoSkipIsSilent(i: nat, n: nat, a: seq<u8>, b: seq<u8>)
    requires Sources(a, Some(b)) && Zeros(b)
    ensures Transform(i, n, a, None) == Transform(i, n, a, Some(b))
  {
  }

  lemma TransformAt(i: nat, n: nat, a: seq<u8>, b: Option<seq<u8>>, j: nat)
    requires Sources(a, b) && j < n
    ensures Transform(i, n, a, b)[j] as int ==
            (31 * a[j % |a|] as int + a[(7 * j + i) % |a|] as int + 13 * i + 3 * j +
             if b.Some? then 17 * b.value[j % |b.value|] as int else 0) % 0x100
  {
    hide Mix;
    MixParts(i, a, b, j, i * 13 + j * 3 + if b.Some? then b.value[j % |b.value|] as int * 17 else 0);
    assert 7 * j == j * 7;
  }

  // What layer k makes of the activations before it.
  lemma LayerReadsItsSources(m: Model, actMax: nat, input: seq<u8>, k: nat, j: nat)
    requires WellFormed(m, actMax) && |input| == m.inputSize && k < |m.layers| && j < m.layers[k].outSize
    ensures var l, r := m.layers[k], Reference(m, actMax, input, k + 1);
            var a := r[l.srcA];
            && r[..k + 1] == Reference(m, actMax, input, k) && |r[k + 1]| == l.outSize
            && r[k + 1][j] as int ==
               (31 * a[j % |a|] as int + a[(7 * j + k) % |a|] as int + 13 * k + 3 * j +
                if l.srcB >= 0 then 17 * r[l.srcB][j % |r[l.srcB]|] as int else 0) % 0x100
  {
    var l, r, before := m.layers[k], Reference(m, actMax, input, k + 1), Reference(m, actMax, input, k);
    assert r[l.srcA] == before[l.srcA] && (l.srcB >= 0 ==> r[l.srcB] == before[l.srcB]);
    var skip := if l.srcB >= 0 then Some(before[l.srcB]) else None;
    assert r[k + 1] == Transform(k, l.outSize, before[l.srcA], skip);
    hide Reference, Mix, Transform, WellFormed;
    TransformAt(k, l.outSize, before[l.srcA], skip, j);
  }

  // ---- a session that nobody disturbs ----

  function Steps(k: nat): (ops: seq<Op>)
    ensures |ops| == k
  {
    seq(k, _ => Op.Step)
  }

  // Layers left after each of k steps, down to none.
  function Countdown(k: nat): (r: seq<Reply>)
    ensures |r| == k
  {
    seq(k, i requires 0 <= i < k => Count(k - 1 - i))
  }

  ghost function Final(cfg: Config, blob: seq<u8>, input: seq<u8>): seq<u8>
    requires Plannable(cfg, blob) && |input| == ModelOf(cfg, blob).inputSize
  {
    var m := ModelOf(cfg, blob);
    Reference(m, cfg.actMax, input, |m.layers|)[|m.layers|]
  }

  // The live session has left layers to go.
  ghost predicate Left(cfg: Config, s: Ideal, left: nat)
    requires IdealValid(cfg, s)
  {
    s.live.Running? && s.live.s.next + left == |ModelOf(cfg, s.live.s.blob).layers|
  }

  lemma StepOnce(cfg: Config, s: Ideal, left: nat) returns (after: Ideal)
    requires IdealValid(cfg, s) && Left(cfg, s, left) && left > 0
    ensures IdealValid(cfg, after) && Left(cfg, after, left - 1)
    ensures after.live.s.blob == s.live.s.blob && after.live.s.input == s.live.s.input
    ensures FirstRuns(cfg, s, Op.Step, Count(left - 1), after)
  {
    after := IdealNext(cfg, s, Op.Step).0;
    hide ModelOf, Plannable;
  }

  lemma OutputOnce(cfg: Config, s: Ideal, cap: nat) returns (after: Ideal)
    requires IdealValid(cfg, s) && Left(cfg, s, 0)
    requires BufferSize(ModelOf(cfg, s.live.s.blob), |ModelOf(cfg, s.live.s.blob).layers|) <= cap
    ensures IdealValid(cfg, after)
    ensures Plannable(cfg, s.live.s.blob) && |s.live.s.input| == ModelOf(cfg, s.live.s.blob).inputSize
    ensures FirstRuns(cfg, s, Op.Output(Some(cap)), Data(Final(cfg, s.live.s.blob, s.live.s.input)), after)
  {
    after := IdealNext(cfg, s, Op.Output(Some(cap))).0;
    hide ModelOf, Plannable, Reference, BufferSize;
  }

  lemma {:induction false} StepsThenOutput(cfg: Config, s: Ideal, left: nat, cap: nat)
    requires IdealValid(cfg, s) && Left(cfg, s, left)
    requires BufferSize(ModelOf(cfg, s.live.s.blob), |ModelOf(cfg, s.live.s.blob).layers|) <= cap
    ensures Plannable(cfg, s.live.s.blob) && |s.live.s.input| == ModelOf(cfg, s.live.s.blob).inputSize
    ensures var ops := Steps(left) + [Op.Output(Some(cap))];
            && Disciplined(cfg, s, ops)
            && IdealRun(cfg, s, ops) == Countdown(left) + [Data(Final(cfg, s.live.s.blob, s.live.s.input))]
    decreases left
  {
    hide IdealNext, IdealValid, ModelOf, Plannable, BufferSize, Final, FirstRuns, Left, Disciplined, IdealRun;
    RunningNow(cfg, s, left);
    if left == 0 {
      var after := OutputOnce(cfg, s, cap);
      NothingRuns(cfg, after);
      OneFirst(cfg, s, Op.Output(Some(cap)), Data(Final(cfg, s.live.s.blob, s.live.s.input)), after, []);
      assert Steps(0) + [Op.Output(Some(cap))] == [Op.Output(Some(cap))] + [];
      assert Countdown(0) == [];
    } else {
      var after := StepOnce(cfg, s, left);
      RunningNow(cfg, after, left - 1);
      StepsThenOutput(cfg, after, left - 1, cap);
      var rest := Steps(left - 1) + [Op.Output(Some(cap))];
      OneFirst(cfg, s, Op.Step, Count(left - 1), after, rest);
      assert Steps(left) + [Op.Output(Some(cap))] == [Op.Step] + rest;
      assert Countdown(left) == [Count(left - 1)] + Countdown(left - 1);
    }
  }

  lemma RunningNow(cfg: Config, s: Ideal, left: nat)
    requires IdealValid(cfg, s) && Left(cfg, s, left)
    ensures s.live.Running?
  {
  }

  lemma NothingRuns(cfg: Config, s: Ideal)
    requires IdealValid(cfg, s)
    ensures Disciplined(cfg, s, []) && IdealRun(cfg, s, []) == []
  {
  }

  ghost predicate FirstRuns(cfg: Config, s: Ideal, op: Op, reply: Reply, after: Ideal)
    requires IdealValid(cfg, s)
  {
    && (SessionOp(op) ==> !s.live.Broken?)
    && IdealNext(cfg, s, op) == (after, reply)
  }

  lemma OneFirst(cfg: Config, s: Ideal, op: Op, reply: Reply, after: Ideal, ops: seq<Op>)
    requires IdealValid(cfg, s) && FirstRuns(cfg, s, op, reply, after) && IdealValid(cfg, after)
    requires Disciplined(cfg, after, ops)
    ensures Disciplined(cfg, s, [op] + ops) && IdealRun(cfg, s, [op] + ops) == [reply] + IdealRun(cfg, after, ops)
  {
    hide IdealNext, IdealValid;
    assert ([op] + ops)[1..] == ops;
  }

  // From power-on: load a blob that can be planned, begin with an input of its size, step
  // until nothing is left, ask for the output. Every call succeeds, and the answer is the
  // reference output.
  lemma UndisturbedRun(cfg: Config, area: seq<u8>, blob: seq<u8>, input: seq<u8>, cap: nat)
    requires |area| == cfg.planMax && Plannable(cfg, blob) && |input| == ModelOf(cfg, blob).inputSize
    requires BufferSize(ModelOf(cfg, blob), |ModelOf(cfg, blob).layers|) <= cap
    ensures var n := |ModelOf(cfg, blob).layers|;
            NpuRun(cfg, Npu(None, Idle, area, [None, None]),
                   [Op.Load(Some(blob))] + ([Op.Begin(Some(input))] + (Steps(n) + [Op.Output(Some(cap))])),
                   [Done] + ([Count(n)] + (Countdown(n) + [Data(Final(cfg, blob, input))])))
  {
    var n := |ModelOf(cfg, blob).layers|;
    var off := Ideal(None, Idle, [None, None]);
    var loaded := off.(resident := Some(blob));
    var begun := loaded.(live := Running(Session(blob, input, 0)));
    var rest := Steps(n) + [Op.Output(Some(cap))];
    assert FirstRuns(cfg, off, Op.Load(Some(blob)), Done, loaded);
    assert FirstRuns(cfg, loaded, Op.Begin(Some(input)), Count(n), begun);
    assert Left(cfg, begun, n);
    StepsThenOutput(cfg, begun, n, cap);
    hide FirstRuns, IdealNext, Disciplined, IdealRun, NpuRun, Plannable, ModelOf;
    OneFirst(cfg, loaded, Op.Begin(Some(input)), Count(n), begun, rest);
    OneFirst(cfg, off, Op.Load(Some(blob)), Done, loaded, [Op.Begin(Some(input))] + rest);
    RunsAgree(cfg, area, [Op.Load(Some(blob))] + ([Op.Begin(Some(input))] + rest));
  }

  // ---- a graph with a skip connection ----

  // Two layers of one byte: the first reads its predecessor, which is the input; the
  // second reads the first and skips back to the input.
  const SKIP_LAYERS: seq<DagLayer> := [DagLayer(1, 0, SRC_PREV, SRC_NONE), DagLayer(1, 0, SRC_PREV, SRC_INPUT)]

  function SkipGraph(): seq<u8> {
    Blob(true, 1, SKIP_LAYERS)
  }

  lemma SkipGraphParses(cfg: Config)
    requires 1 <= cfg.actMax && 3 <= cfg.planMax
    ensures Parse(Some(SkipGraph()), cfg.actMax) == Ok(Model(1, [Layer(1, 0, 0, -1), Layer(1, 0, 1, 0)]))
    ensures Plannable(cfg, SkipGraph())
  {
    assert Resolve(SKIP_LAYERS[0], 0, cfg.actMax) == Ok(Layer(1, 0, 0, -1));
    assert Resolve(SKIP_LAYERS[1], 1, cfg.actMax) == Ok(Layer(1, 0, 1, 0));
    hide Parse, Resolve, Fits, Buffers;
    BlobParses(true, 1, SKIP_LAYERS, [], cfg.actMax);
    assert SkipGraph() + [] == SkipGraph();
    var m := Parse(Some(SkipGraph()), cfg.actMax).value;
    assert Ok(m.layers[0]) == Resolve(SKIP_LAYERS[0], 0, cfg.actMax);
    assert Ok(m.layers[1]) == Resolve(SKIP_LAYERS[1], 1, cfg.actMax);
    assert m.layers == [Layer(1, 0, 0, -1), Layer(1, 0, 1, 0)];
    OneByteBuffersFit(m, cfg.planMax);
  }

  // On input 1 the first layer gives 31 + 1 and the second 31 * 32 + 32 + 13 + 17 * 1,
  // which is 30 modulo 256: each reads the right buffers.
  lemma SkipGraphRuns(cfg: Config, area: seq<u8>)
    requires 1 <= cfg.actMax && 3 <= cfg.planMax == |area|
    ensures NpuRun(cfg, Npu(None, Idle, area, [None, None]),
                   [Op.Load(Some(SkipGraph())), Op.Begin(Some([1])), Op.Step, Op.Step, Op.Output(Some(1))],
                   [Done, Count(2), Count(1), Count(0), Data([30])])
  {
    SkipGraphFinal(cfg);
    hide SkipGraph, Plannable, ModelOf, Reference, NpuRun, Final;
    UndisturbedRun(cfg, area, SkipGraph(), [1], 1);
    assert Steps(2) == [Op.Step, Op.Step] && Countdown(2) == [Count(1), Count(0)];
    var rest, replies := Steps(2) + [Op.Output(Some(1))], Countdown(2) + [Data([30])];
    assert [Op.Load(Some(SkipGraph()))] + ([Op.Begin(Some([1]))] + rest) ==
           [Op.Load(Some(SkipGraph())), Op.Begin(Some([1])), Op.Step, Op.Step, Op.Output(Some(1))];
    assert [Done] + ([Count(2)] + replies) == [Done, Count(2), Count(1), Count(0), Data([30])];
  }

  lemma SkipGraphFinal(cfg: Config)
    requires 1 <= cfg.actMax && 3 <= cfg.planMax
    ensures Plannable(cfg, SkipGraph())
    ensures var m := ModelOf(cfg, SkipGraph()); m.inputSize == 1 && |m.layers| == 2 && BufferSize(m, 2) == 1
    ensures Final(cfg, SkipGraph(), [1]) == [30]
  {
    SkipGraphParses(cfg);
    hide SkipGraph, Parse, Fits, Buffers, Reference;
    assert ModelOf(cfg, SkipGraph()) == Model(1, [Layer(1, 0, 0, -1), Layer(1, 0, 1, 0)]);
    SkipGraphOutput(cfg.actMax);
  }

  lemma SkipGraphOutput(actMax: nat)
    requires 1 <= actMax
    ensures var m := Model(1, [Layer(1, 0, 0, -1), Layer(1, 0, 1, 0)]);
            WellFormed(m, actMax) && Reference(m, actMax, [1], 2)[2] == [30]
  {
    var m := Model(1, [Layer(1, 0, 0, -1), Layer(1, 0, 1, 0)]);
    assert Reference(m, actMax, [1], 0) == [[1]];
    assert Mix(0, [1], None, 0) == 32 && Mix(1, [32], Some([1]), 0) == 30;
    assert Transform(0, 1, [1], None) == [32] && Transform(1, 1, [32], Some([1])) == [30];
    assert Reference(m, actMax, [1], 1) == [[1], [32]];
    assert Reference(m, actMax, [1], 2) == [[1], [32], [30]];
  }
}
