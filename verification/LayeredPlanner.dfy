// Greedy first-fit placement of activations in one shared area.
//
// The specification side works on buffers with a size and a lifetime and says which
// offset each gets; PlaceBuffers is the pair of nested loops that fills the plan
// record, and the lemmas bound the peak it reports.
module LayeredPlanner {
  import opened Errno
  import opened LayeredFormat

  // A buffer with the layer times at which it is written and last read.
  datatype Buffer = Buffer(size: nat, def: int, last: int)

  // ---- lifetimes ----

  predicate Reads(l: Layer, b: nat) {
    l.srcA == b || l.srcB == b
  }

  function DefTime(b: nat): int {
    if b == 0 then 0 else b - 1
  }

  // The last of the first k layers that reads b, or the time b is written.
  function LastUse(m: Model, b: nat, k: nat): int
    requires k <= |m.layers|
  {
    if k == 0 then DefTime(b)
    else if Reads(m.layers[k - 1], b) && LastUse(m, b, k - 1) < k - 1 then k - 1
    else LastUse(m, b, k - 1)
  }

  // The final output is read after the last layer.
  function LastTime(m: Model, b: nat): int
    requires b <= |m.layers|
  {
    if b == |m.layers| then b else LastUse(m, b, |m.layers|)
  }

  function BufferSize(m: Model, b: nat): nat
    requires b <= |m.layers|
  {
    if b == 0 then m.inputSize else m.layers[b - 1].outSize
  }

  function Buffers(m: Model): (r: seq<Buffer>)
    ensures |r| == |m.layers| + 1
  {
    seq(|m.layers| + 1, b requires 0 <= b <= |m.layers| => Buffer(BufferSize(m, b), DefTime(b), LastTime(m, b)))
  }

  lemma {:induction false} LastUseCovers(m: Model, b: nat, k: nat)
    requires k <= |m.layers|
    ensures DefTime(b) <= LastUse(m, b, k)
    ensures forall i :: 0 <= i < k && Reads(m.layers[i], b) ==> i <= LastUse(m, b, k)
    ensures LastUse(m, b, k) == DefTime(b) ||
            (0 <= LastUse(m, b, k) < k && Reads(m.layers[LastUse(m, b, k)], b))
  {
    if k > 0 {
      LastUseCovers(m, b, k - 1);
    }
  }

  // ---- placement ----

  predicate TimeOverlap(x: Buffer, y: Buffer) {
    x.def <= y.last && y.def <= x.last
  }

  // Buffer |offs| placed at off would share a byte with the already placed buffer o.
  predicate Clash(bufs: seq<Buffer>, offs: seq<nat>, off: nat, o: nat)
    requires o < |offs| < |bufs|
  {
    && TimeOverlap(bufs[|offs|], bufs[o])
    && off < offs[o] + bufs[o].size
    && offs[o] < off + bufs[|offs|].size
  }

  ghost predicate Free(bufs: seq<Buffer>, offs: seq<nat>, off: nat)
    requires |offs| < |bufs|
  {
    forall o :: 0 <= o < |offs| ==> !Clash(bufs, offs, off, o)
  }

  function Peak(bufs: seq<Buffer>, offs: seq<nat>): nat
    requires |offs| <= |bufs|
  {
    if offs == [] then 0
    else
      var k := |offs| - 1;
      var rest := Peak(bufs, offs[..k]);
      if offs[k] + bufs[k].size > rest then offs[k] + bufs[k].size else rest
  }

  lemma {:induction false} PeakCovers(bufs: seq<Buffer>, offs: seq<nat>, b: nat)
    requires b < |offs| <= |bufs|
    ensures offs[b] + bufs[b].size <= Peak(bufs, offs)
  {
    var k := |offs| - 1;
    if b < k {
      PeakCovers(bufs, offs[..k], b);
    }
  }

  // The least free offset at or above off. Beyond the peak everything is free.
  ghost function FirstFit(bufs: seq<Buffer>, offs: seq<nat>, off: nat): (r: nat)
    requires |offs| < |bufs|
    ensures off <= r && Free(bufs, offs, r)
    ensures forall x :: off <= x < r ==> !Free(bufs, offs, x)
    decreases Peak(bufs, offs) - off
  {
    if Free(bufs, offs, off) then off
    else
      var o :| 0 <= o < |offs| && Clash(bufs, offs, off, o);
      PeakCovers(bufs, offs, o);
      FirstFit(bufs, offs, off + 1)
  }

  // Where the planner puts the first k buffers when the area is large enough.
  ghost function Offsets(bufs: seq<Buffer>, k: nat): (r: seq<nat>)
    requires k <= |bufs|
    ensures |r| == k
  {
    if k == 0 then [] else Offsets(bufs, k - 1) + [FirstFit(bufs, Offsets(bufs, k - 1), 0)]
  }

  ghost predicate Fits(bufs: seq<Buffer>, planMax: nat, k: nat)
    requires k <= |bufs|
  {
    forall b :: 0 <= b < k ==> Offsets(bufs, k)[b] + bufs[b].size <= planMax
  }

  lemma {:induction false} OffsetsPrefix(bufs: seq<Buffer>, j: nat, k: nat)
    requires j <= k <= |bufs|
    ensures Offsets(bufs, k)[..j] == Offsets(bufs, j)
  {
    if j < k {
      OffsetsPrefix(bufs, j, k - 1);
      assert Offsets(bufs, k)[..j] == Offsets(bufs, k - 1)[..j];
    }
  }

  // Placement is first fit: no byte is shared with an earlier buffer alive at an
  // overlapping time, and at every lower offset one would be.
  lemma PlacedFirstFit(bufs: seq<Buffer>, b: nat)
    requires b < |bufs|
    ensures var offs := Offsets(bufs, |bufs|);
            && Free(bufs, offs[..b], offs[b])
            && forall x :: 0 <= x < offs[b] ==> !Free(bufs, offs[..b], x)
  {
    OffsetsPrefix(bufs, b, |bufs|);
    OffsetsPrefix(bufs, b + 1, |bufs|);
    assert Offsets(bufs, |bufs|)[b] == Offsets(bufs, |bufs|)[..b + 1][b];
  }

  predicate Disjoint(off1: nat, size1: nat, off2: nat, size2: nat) {
    off1 + size1 <= off2 || off2 + size2 <= off1
  }

  // Two buffers alive at a common layer time never overlap in the area.
  lemma LiveBuffersDisjoint(bufs: seq<Buffer>, a: nat, b: nat)
    requires a < |bufs| && b < |bufs| && a != b && TimeOverlap(bufs[a], bufs[b])
    ensures var offs := Offsets(bufs, |bufs|); Disjoint(offs[a], bufs[a].size, offs[b], bufs[b].size)
  {
    var offs := Offsets(bufs, |bufs|);
    var lo, hi := if a < b then a else b, if a < b then b else a;
    PlacedFirstFit(bufs, hi);
    assert !Clash(bufs, offs[..hi], offs[hi], lo);
  }

  // ---- bounds on the peak ----

  function SumSizes(bufs: seq<Buffer>): nat {
    if bufs == [] then 0 else SumSizes(bufs[..|bufs| - 1]) + bufs[|bufs| - 1].size
  }

  lemma {:induction false} SumSizesMonotone(bufs: seq<Buffer>, j: nat)
    requires j <= |bufs|
    ensures SumSizes(bufs[..j]) <= SumSizes(bufs)
  {
    if j < |bufs| {
      var rest := bufs[..|bufs| - 1];
      SumSizesMonotone(rest, j);
      assert rest[..j] == bufs[..j];
    } else {
      assert bufs[..j] == bufs;
    }
  }

  // A buffer sits at the bottom or directly on top of an earlier one.
  lemma OffsetIsZeroOrAnEnd(bufs: seq<Buffer>, b: nat) returns (o: nat)
    requires b < |bufs|
    ensures var offs := Offsets(bufs, |bufs|);
            offs[b] == 0 || (o < b && offs[b] == offs[o] + bufs[o].size)
  {
    var offs := Offsets(bufs, |bufs|);
    o := 0;
    PlacedFirstFit(bufs, b);
    if offs[b] > 0 {
      assert !Free(bufs, offs[..b], offs[b] - 1);
      o :| 0 <= o < b && Clash(bufs, offs[..b], offs[b] - 1, o);
      assert !Clash(bufs, offs[..b], offs[b], o);
    }
  }

  // Following those supports down to offset 0 visits every buffer at most once.
  lemma {:induction false} EndWithinSum(bufs: seq<Buffer>, b: nat)
    requires b < |bufs|
    ensures Offsets(bufs, |bufs|)[b] + bufs[b].size <= SumSizes(bufs[..b + 1])
  {
    var o := OffsetIsZeroOrAnEnd(bufs, b);
    assert bufs[..b + 1][..b] == bufs[..b];
    if Offsets(bufs, |bufs|)[b] > 0 {
      EndWithinSum(bufs, o);
      SumSizesMonotone(bufs[..b], o + 1);
      assert bufs[..b][..o + 1] == bufs[..o + 1];
    }
  }

  lemma {:induction false} PeakBelow(bufs: seq<Buffer>, offs: seq<nat>, bound: nat)
    requires |offs| <= |bufs|
    requires forall b :: 0 <= b < |offs| ==> offs[b] + bufs[b].size <= bound
    ensures Peak(bufs, offs) <= bound
  {
    if offs != [] {
      PeakBelow(bufs, offs[..|offs| - 1], bound);
    }
  }

  // The planned peak never exceeds the all-live sum.
  lemma PeakAtMostNaive(bufs: seq<Buffer>)
    ensures Peak(bufs, Offsets(bufs, |bufs|)) <= SumSizes(bufs)
  {
    hide Offsets, SumSizes, Peak;
    forall b | 0 <= b < |bufs| ensures Offsets(bufs, |bufs|)[b] + bufs[b].size <= SumSizes(bufs) {
      EndWithinSum(bufs, b);
      SumSizesMonotone(bufs, b + 1);
    }
    PeakBelow(bufs, Offsets(bufs, |bufs|), SumSizes(bufs));
  }

  predicate AliveAt(x: Buffer, t: int) {
    x.def <= t <= x.last
  }

  function LiveSum(bufs: seq<Buffer>, t: int): nat {
    if bufs == [] then 0
    else
      var k := |bufs| - 1;
      LiveSum(bufs[..k], t) + if AliveAt(bufs[k], t) then bufs[k].size else 0
  }

  // The naive baseline is what would be alive if nothing ever died.
  lemma {:induction false} NaiveIsAllLive(bufs: seq<Buffer>, t: int)
    requires forall b :: 0 <= b < |bufs| ==> AliveAt(bufs[b], t)
    ensures SumSizes(bufs) == LiveSum(bufs, t)
  {
    if bufs != [] {
      NaiveIsAllLive(bufs[..|bufs| - 1], t);
    }
  }

  function Range(lo: int, hi: int): (r: set<int>)
    ensures forall x :: x in r <==> lo <= x < hi
    ensures |r| == if lo <= hi then hi - lo else 0
    decreases hi - lo
  {
    if lo >= hi then {} else Range(lo, hi - 1) + {hi - 1}
  }

  // The bytes the first k buffers occupy at layer time t.
  ghost function Cells(bufs: seq<Buffer>, offs: seq<nat>, k: nat, t: int): set<int>
    requires k <= |bufs| == |offs|
  {
    if k == 0 then {}
    else Cells(bufs, offs, k - 1, t) +
         if AliveAt(bufs[k - 1], t) then Range(offs[k - 1], offs[k - 1] + bufs[k - 1].size) else {}
  }

  lemma {:induction false} CellsOwner(bufs: seq<Buffer>, offs: seq<nat>, k: nat, t: int, x: int) returns (b: nat)
    requires k <= |bufs| == |offs| && x in Cells(bufs, offs, k, t)
    ensures b < k && AliveAt(bufs[b], t) && offs[b] <= x < offs[b] + bufs[b].size
  {
    if x in Cells(bufs, offs, k - 1, t) {
      b := CellsOwner(bufs, offs, k - 1, t, x);
    } else {
      b := k - 1;
    }
  }

  // Buffers alive together are disjoint, so the cells count their sizes.
  lemma {:induction false} CellsCount(bufs: seq<Buffer>, k: nat, t: int)
    requires k <= |bufs|
    ensures |Cells(bufs, Offsets(bufs, |bufs|), k, t)| == LiveSum(bufs[..k], t)
  {
    if k > 0 {
      var offs := Offsets(bufs, |bufs|);
      CellsCount(bufs, k - 1, t);
      assert bufs[..k][..k - 1] == bufs[..k - 1];
      if AliveAt(bufs[k - 1], t) {
        var mine := Range(offs[k - 1], offs[k - 1] + bufs[k - 1].size);
        forall x | x in Cells(bufs, offs, k - 1, t) ensures x !in mine {
          var b := CellsOwner(bufs, offs, k - 1, t, x);
          LiveBuffersDisjoint(bufs, b, k - 1);
        }
        assert Cells(bufs, offs, k - 1, t) !! mine;
      }
    }
  }

  lemma SubsetSize(a: set<int>, b: set<int>)
    requires a <= b
    ensures |a| <= |b|
  {
    assert b == a + (b - a);
  }

  // No plan can be smaller than what is alive at once, and first fit never reports less.
  lemma PeakAtLeastLive(bufs: seq<Buffer>, t: int)
    ensures LiveSum(bufs, t) <= Peak(bufs, Offsets(bufs, |bufs|))
  {
    var offs := Offsets(bufs, |bufs|);
    var peak := Peak(bufs, offs);
    CellsCount(bufs, |bufs|, t);
    assert bufs[..|bufs|] == bufs;
    forall x | x in Cells(bufs, offs, |bufs|, t) ensures x in Range(0, peak) {
      var b := CellsOwner(bufs, offs, |bufs|, t, x);
      PeakCovers(bufs, offs, b);
    }
    SubsetSize(Cells(bufs, offs, |bufs|, t), Range(0, peak));
  }

  // ---- what the placement means for the layers ----

  // Layer time t is one at which buffer b must be in the area: it is being written, it is
  // still to be read by a layer, or it is the final output and not handed out yet.
  ghost predicate NeededAt(m: Model, b: nat, t: int)
    requires b <= |m.layers|
  {
    var n, born := |m.layers|, if b == 0 then 0 else b - 1;
    && born <= t
    && (t == born || (b == n && t <= n) || (b < n && exists i :: t <= i < n && Reads(m.layers[i], b)))
  }

  // What the tables must say about the life of buffer b: it ends at the layer that reads
  // it last, or right where it began.
  ghost predicate LifeOf(m: Model, b: nat, def: int, last: int)
    requires b <= |m.layers|
  {
    var n := |m.layers|;
    && def == (if b == 0 then 0 else b - 1) <= last
    && (b == n ==> last == n)
    && (b < n ==>
          && (last == def || (0 <= last < n && Reads(m.layers[last], b)))
          && forall i :: 0 <= i < n && Reads(m.layers[i], b) ==> i <= last)
  }

  lemma LifeIsLastUse(m: Model, b: nat)
    requires b <= |m.layers|
    ensures LifeOf(m, b, DefTime(b), LastTime(m, b))
  {
    LastUseCovers(m, b, |m.layers|);
  }

  // A buffer is alive exactly while it is needed.
  lemma AliveIffNeeded(m: Model, b: nat, t: int)
    requires b <= |m.layers|
    ensures AliveAt(Buffers(m)[b], t) <==> NeededAt(m, b, t)
  {
    LifeIsLastUse(m, b);
    hide LastTime;
  }

  // Buffer b placed at x and buffer o placed at y would hold one byte at one time.
  ghost predicate Share(m: Model, b: nat, x: nat, o: nat, y: nat)
    requires b <= |m.layers| && o <= |m.layers|
  {
    exists t: int, i: int ::
      NeededAt(m, b, t) && NeededAt(m, o, t) && Within(m, b, x, i) && Within(m, o, y, i)
  }

  predicate Within(m: Model, b: nat, x: nat, i: int)
    requires b <= |m.layers|
  {
    x <= i < x + if b == 0 then m.inputSize else m.layers[b - 1].outSize
  }

  lemma ClashIffShare(m: Model, actMax: nat, offs: seq<nat>, x: nat, o: nat)
    requires WellFormed(m, actMax) && o < |offs| <= |m.layers|
    ensures Clash(Buffers(m), offs, x, o) <==> Share(m, |offs|, x, o, offs[o])
  {
    var b := |offs|;
    var bb, bo := Buffers(m)[b], Buffers(m)[o];
    LifeIsLastUse(m, b);
    LifeIsLastUse(m, o);
    assert bb.size == BufferSize(m, b) > 0 && bo.size == BufferSize(m, o) > 0;
    if Clash(Buffers(m), offs, x, o) {
      var t := if bb.def >= bo.def then bb.def else bo.def;
      var i := if x >= offs[o] then x else offs[o];
      AliveIffNeeded(m, b, t);
      AliveIffNeeded(m, o, t);
      assert NeededAt(m, b, t) && NeededAt(m, o, t) && Within(m, b, x, i) && Within(m, o, offs[o], i);
    }
    if Share(m, b, x, o, offs[o]) {
      var t: int, i: int :|
        NeededAt(m, b, t) && NeededAt(m, o, t) && Within(m, b, x, i) && Within(m, o, offs[o], i);
      AliveIffNeeded(m, b, t);
      AliveIffNeeded(m, o, t);
    }
  }

  // The placement that is asked for: going through the buffers in order, each gets the
  // least offset at which it shares no byte with an earlier buffer while both are needed.
  ghost predicate Least(m: Model, offs: seq<nat>) {
    && |offs| == |m.layers| + 1
    && forall b :: 0 <= b < |offs| ==>
                     Fine(m, offs, b, offs[b]) && forall x :: 0 <= x < offs[b] ==> !Fine(m, offs, b, x)
  }

  ghost predicate Fine(m: Model, offs: seq<nat>, b: nat, x: nat)
    requires b < |offs| == |m.layers| + 1
  {
    forall o :: 0 <= o < b ==> !Share(m, b, x, o, offs[o])
  }

  lemma FineIffFree(m: Model, actMax: nat, offs: seq<nat>, b: nat, x: nat)
    requires WellFormed(m, actMax) && b < |offs| == |m.layers| + 1
    ensures Fine(m, offs, b, x) <==> Free(Buffers(m), offs[..b], x)
  {
    hide Share, Clash, Buffers;
    forall o | 0 <= o < b ensures Clash(Buffers(m), offs[..b], x, o) <==> Share(m, b, x, o, offs[o]) {
      ClashIffShare(m, actMax, offs[..b], x, o);
    }
  }

  lemma OffsetsAreLeast(m: Model, actMax: nat)
    requires WellFormed(m, actMax)
    ensures Least(m, Offsets(Buffers(m), |m.layers| + 1))
  {
    hide Fine, Free, Offsets, Buffers;
    var bufs := Buffers(m);
    var offs := Offsets(bufs, |bufs|);
    forall b | 0 <= b < |offs|
      ensures Fine(m, offs, b, offs[b]) && forall x :: 0 <= x < offs[b] ==> !Fine(m, offs, b, x)
    {
      PlacedFirstFit(bufs, b);
      FineIffFree(m, actMax, offs, b, offs[b]);
      forall x | 0 <= x < offs[b] ensures !Fine(m, offs, b, x) {
        FineIffFree(m, actMax, offs, b, x);
      }
    }
  }

  // There is only one.
  lemma {:induction false} LeastIsUnique(m: Model, offs: seq<nat>, offs': seq<nat>, b: nat)
    requires Least(m, offs) && Least(m, offs') && b <= |m.layers| + 1
    ensures offs[..b] == offs'[..b]
  {
    if b > 0 {
      var k := b - 1;
      LeastIsUnique(m, offs, offs', k);
      FineAgrees(m, offs, offs', k, offs[k]);
      FineAgrees(m, offs, offs', k, offs'[k]);
      hide Fine;
      assert offs[k] == offs'[k];
      assert offs[..b] == offs[..k] + [offs[k]] && offs'[..b] == offs'[..k] + [offs'[k]];
    }
  }

  lemma FineAgrees(m: Model, offs: seq<nat>, offs': seq<nat>, k: nat, x: nat)
    requires k < |offs| == |offs'| == |m.layers| + 1 && offs[..k] == offs'[..k]
    ensures Fine(m, offs, k, x) <==> Fine(m, offs', k, x)
  {
    hide Share;
    forall o | 0 <= o < k ensures offs[o] == offs'[o] {
      assert offs[..k][o] == offs'[..k][o];
    }
  }

  // The tables of p and the layers of m: sizes, lives, the least placement and its peak.
  ghost predicate PlanOk(p: ModelPlan, m: Model) {
    var n := |m.layers|;
    && Tables(p) && n < NBUF
    && (forall b :: 0 <= b <= n ==> LifeOf(m, b, p.def[b], p.last[b]))
    && (forall b :: 0 <= b <= n ==> p.bufSize[b] == if b == 0 then m.inputSize else m.layers[b - 1].outSize)
    && Least(m, p.bufOff[..n + 1])
    && (forall b :: 0 <= b <= n ==> p.bufOff[b] + p.bufSize[b] <= p.plannedPeak)
    && (exists b :: 0 <= b <= n && p.bufOff[b] + p.bufSize[b] == p.plannedPeak)
  }

  // The least placement ends inside the area.
  ghost predicate LeastFits(m: Model, planMax: nat) {
    exists offs :: Least(m, offs) && EndsWithin(m, offs, planMax)
  }

  predicate EndsWithin(m: Model, offs: seq<nat>, planMax: nat)
    requires |offs| == |m.layers| + 1
  {
    forall b :: 0 <= b < |offs| ==> offs[b] + (if b == 0 then m.inputSize else m.layers[b - 1].outSize) <= planMax
  }

  lemma FitsIffLeastFits(m: Model, actMax: nat, planMax: nat)
    requires WellFormed(m, actMax)
    ensures Fits(Buffers(m), planMax, |m.layers| + 1) <==> LeastFits(m, planMax)
  {
    var offs := Offsets(Buffers(m), |m.layers| + 1);
    OffsetsAreLeast(m, actMax);
    hide Least, Offsets, LastTime;
    assert forall b :: 0 <= b < |offs| ==> Buffers(m)[b].size == BufferSize(m, b);
    hide Buffers;
    assert Fits(Buffers(m), planMax, |m.layers| + 1) <==> EndsWithin(m, offs, planMax);
    hide Fits;
    if LeastFits(m, planMax) {
      var other :| Least(m, other) && EndsWithin(m, other, planMax);
      LeastLength(m, other);
      LeastIsUnique(m, offs, other, |m.layers| + 1);
      assert offs[..|offs|] == offs && other[..|offs|] == other;
    }
  }

  lemma LeastLength(m: Model, offs: seq<nat>)
    requires Least(m, offs)
    ensures |offs| == |m.layers| + 1
  {
  }

  // What overlaying is worth: a chain in which everything has size s needs 2 * s bytes,
  // however long it is, where buffers of their own would need s for each.
  ghost predicate EvenChain(m: Model, s: nat) {
    && m.inputSize == s
    && forall i :: 0 <= i < |m.layers| ==>
         m.layers[i].outSize == s && m.layers[i].srcA == i && m.layers[i].srcB == -1
  }

  function Alternating(s: nat, n: nat): (offs: seq<nat>)
    ensures |offs| == n
  {
    seq(n, b => if b % 2 == 0 then 0 else s)
  }

  lemma ChainShares(m: Model, s: nat, b: nat, x: nat, o: nat, y: nat)
    requires EvenChain(m, s) && o < b <= |m.layers|
    ensures Share(m, b, x, o, y) <==> o == b - 1 && x < y + s && y < x + s && s > 0
  {
    if o == b - 1 {
      assert Reads(m.layers[b - 1], o);
      assert NeededAt(m, b, b - 1) && NeededAt(m, o, b - 1);
      var i := if x >= y then x else y;
      if x < y + s && y < x + s && s > 0 {
        assert Within(m, b, x, i) && Within(m, o, y, i);
      }
    }
  }

  lemma ChainAlternates(m: Model, s: nat)
    requires EvenChain(m, s) && s > 0
    ensures Least(m, Alternating(s, |m.layers| + 1))
  {
    var offs := Alternating(s, |m.layers| + 1);
    hide Share, EvenChain;
    forall b | 0 <= b < |offs|
      ensures Fine(m, offs, b, offs[b]) && forall x :: 0 <= x < offs[b] ==> !Fine(m, offs, b, x)
    {
      forall o, x: nat | 0 <= o < b
        ensures Share(m, b, x, o, offs[o]) <==> o == b - 1 && x < offs[o] + s && offs[o] < x + s
      {
        ChainShares(m, s, b, x, o, offs[o]);
      }
      forall x | 0 <= x < offs[b] ensures !Fine(m, offs, b, x) {
        assert Share(m, b, x, b - 1, offs[b - 1]);
      }
    }
  }

  lemma ChainFitsIff(m: Model, s: nat, planMax: nat)
    requires EvenChain(m, s) && s > 0 && |m.layers| > 0
    ensures LeastFits(m, planMax) <==> 2 * s <= planMax
  {
    var offs := Alternating(s, |m.layers| + 1);
    ChainAlternates(m, s);
    hide Least;
    if LeastFits(m, planMax) {
      var other :| Least(m, other) && EndsWithin(m, other, planMax);
      LeastLength(m, other);
      LeastIsUnique(m, offs, other, |m.layers| + 1);
      assert offs[..|offs|] == offs && other[..|offs|] == other;
      assert offs[1] == s;
    }
    if 2 * s <= planMax {
      assert EndsWithin(m, offs, planMax);
    }
  }

  lemma {:induction false} PeakIsAnEnd(bufs: seq<Buffer>, offs: seq<nat>) returns (b: nat)
    requires 0 < |offs| <= |bufs| && forall k :: 0 <= k < |offs| ==> bufs[k].size > 0
    ensures b < |offs| && offs[b] + bufs[b].size == Peak(bufs, offs)
  {
    var k := |offs| - 1;
    b := k;
    if offs[k] + bufs[k].size <= Peak(bufs, offs[..k]) {
      b := PeakIsAnEnd(bufs, offs[..k]);
    }
  }

  lemma TablesHoldLives(p: ModelPlan, m: Model)
    requires Timed(p, m)
    ensures forall b :: 0 <= b <= |m.layers| ==>
              && LifeOf(m, b, p.def[b], p.last[b])
              && p.bufSize[b] == BufferSize(m, b) == Buffers(m)[b].size
  {
    hide LifeOf, LastTime;
    forall b | 0 <= b <= |m.layers|
      ensures LifeOf(m, b, p.def[b], p.last[b]) && p.bufSize[b] == BufferSize(m, b) == Buffers(m)[b].size
    {
      LifeIsLastUse(m, b);
      assert Buffers(m)[b] == Buffer(p.bufSize[b], p.def[b], p.last[b]);
    }
  }

  lemma PlannedPeak(p: ModelPlan, m: Model, actMax: nat, planMax: nat)
    requires WellFormed(m, actMax) && Planned(p, m, planMax)
    ensures forall b :: 0 <= b <= |m.layers| ==> p.bufOff[b] + p.bufSize[b] <= p.plannedPeak
    ensures exists b :: 0 <= b <= |m.layers| && p.bufOff[b] + p.bufSize[b] == p.plannedPeak
  {
    var bufs := Buffers(m);
    var offs := p.bufOff[..|m.layers| + 1];
    assert offs == Offsets(bufs, |bufs|) && p.plannedPeak == Peak(bufs, offs);
    TablesHoldLives(p, m);
    SizesPositive(m, actMax);
    hide Offsets, LifeOf, Peak, LastTime, Buffers, Planned, BufferSize, WellFormed;
    forall b | 0 <= b <= |m.layers| ensures p.bufOff[b] + p.bufSize[b] <= p.plannedPeak {
      PeakCovers(bufs, offs, b);
    }
    var b := PeakIsAnEnd(bufs, offs);
    assert offs[b] == p.bufOff[b];
  }

  lemma SizesPositive(m: Model, actMax: nat)
    requires WellFormed(m, actMax)
    ensures forall b :: 0 <= b <= |m.layers| ==> Buffers(m)[b].size > 0
  {
  }

  lemma PlannedIsOk(p: ModelPlan, m: Model, actMax: nat, planMax: nat)
    requires WellFormed(m, actMax) && Planned(p, m, planMax)
    ensures PlanOk(p, m)
  {
    OffsetsAreLeast(m, actMax);
    TablesHoldLives(p, m);
    PlannedPeak(p, m, actMax, planMax);
    assert Tables(p) && p.bufOff[..|m.layers| + 1] == Offsets(Buffers(m), |m.layers| + 1);
    hide Offsets, Least, LifeOf, Peak, LastTime, Buffers, Fits, Planned;
  }

  // ---- the planner ----

  // The buffer tables of p hold the sizes and lifetimes of model m.
  predicate Timed(p: ModelPlan, m: Model) {
    && Describes(p, m)
    && forall b :: 0 <= b <= |m.layers| ==>
         Buffers(m)[b] == Buffer(p.bufSize[b], p.def[b], p.last[b])
  }

  // A completely planned model: offsets, peak and baseline included.
  ghost predicate Planned(p: ModelPlan, m: Model, planMax: nat) {
    && Timed(p, m)
    && Fits(Buffers(m), planMax, |m.layers| + 1)
    && p.bufOff[..|m.layers| + 1] == Offsets(Buffers(m), |m.layers| + 1)
    && p.plannedPeak == Peak(Buffers(m), Offsets(Buffers(m), |m.layers| + 1))
    && p.naivePeak == SumSizes(Buffers(m))
  }

  method ComputeLifetimes(p0: ModelPlan, ghost m: Model, actMax: nat) returns (p: ModelPlan)
    requires Describes(p0, m) && WellFormed(m, actMax)
    ensures Timed(p, m) && p == p0.(bufSize := p.bufSize, def := p.def, last := p.last)
    ensures forall b :: 0 <= b <= |m.layers| ==> LifeOf(m, b, p.def[b], p.last[b])
  {
    p := FillBuffers(p0, m);
    p := FillLastUses(p, m, actMax);
    p := p.(last := p.last[p.layerCount := p.layerCount]);
    TablesHoldLives(p, m);
    hide LifeOf;
  }

  // Sizes and times of definition; nothing is read yet.
  method FillBuffers(p0: ModelPlan, ghost m: Model) returns (p: ModelPlan)
    requires Describes(p0, m)
    ensures Tables(p) && p == p0.(bufSize := p.bufSize, def := p.def, last := p.last)
    ensures Filled(p, m, 0)
  {
    p := p0;
    var n := p.layerCount;
    p := p.(bufSize := p.bufSize[0 := p.inputSize], def := p.def[0 := 0], last := p.last[0 := 0]);
    for i := 0 to n
      invariant Tables(p) && p == p0.(bufSize := p.bufSize, def := p.def, last := p.last)
      invariant forall b :: 0 <= b <= i ==>
        p.bufSize[b] == BufferSize(m, b) && p.def[b] == DefTime(b) && p.last[b] == LastUse(m, b, 0)
    {
      p := p.(bufSize := p.bufSize[i + 1 := p.outSize[i]], def := p.def[i + 1 := i], last := p.last[i + 1 := i]);
    }
  }

  // The buffer tables, with the reads of the first k layers.
  predicate Filled(p: ModelPlan, m: Model, k: nat)
    requires Tables(p) && k <= |m.layers| <= MAX_LAYERS
  {
    forall b :: 0 <= b <= |m.layers| ==>
      p.bufSize[b] == BufferSize(m, b) && p.def[b] == DefTime(b) && p.last[b] == LastUse(m, b, k)
  }

  method FillLastUses(p0: ModelPlan, ghost m: Model, actMax: nat) returns (p: ModelPlan)
    requires Describes(p0, m) && WellFormed(m, actMax) && Filled(p0, m, 0)
    ensures Tables(p) && p == p0.(last := p.last) && Filled(p, m, |m.layers|)
  {
    p := p0;
    var n := p.layerCount;
    for i := 0 to n
      invariant Tables(p) && p == p0.(last := p.last) && Filled(p, m, i)
    {
      p := FillReads(p, m, i);
    }
  }

  // Layer i reads its sources.
  method FillReads(p0: ModelPlan, ghost m: Model, i: nat) returns (p: ModelPlan)
    requires Tables(p0) && i < |m.layers| <= MAX_LAYERS && Filled(p0, m, i)
    requires m.layers[i] == LayerEntry(p0, i) && 0 <= p0.srcA[i] <= |m.layers| && -1 <= p0.srcB[i] <= |m.layers|
    ensures Tables(p) && p == p0.(last := p.last) && Filled(p, m, i + 1)
  {
    p := p0;
    if p.last[p.srcA[i]] < i {
      p := p.(last := p.last[p.srcA[i] := i]);
    }
    if p.srcB[i] >= 0 && p.last[p.srcB[i]] < i {
      p := p.(last := p.last[p.srcB[i] := i]);
    }
  }

  method SumOfSizes(p: ModelPlan, ghost bufs: seq<Buffer>) returns (naive: nat)
    requires |bufs| <= |p.bufSize| && |bufs| == p.layerCount + 1
    requires forall b :: 0 <= b < |bufs| ==> bufs[b].size == p.bufSize[b]
    ensures naive == SumSizes(bufs)
  {
    naive := 0;
    for b := 0 to p.layerCount + 1
      invariant naive == SumSizes(bufs[..b])
    {
      assert bufs[..b + 1][..b] == bufs[..b];
      naive := naive + p.bufSize[b];
    }
    assert bufs[..p.layerCount + 1] == bufs;
  }

  // The bump loop for buffer b: every pass that moves raises the offset to the end of
  // a placed buffer, and all placed ends lie within the area, so it terminates.
  method BumpPast(p: ModelPlan, b: nat, planMax: nat, ghost bufs: seq<Buffer>, ghost peak: nat) returns (off: nat)
    requires HoldsBuffers(p, bufs) && b < |bufs| && PlacedFirst(p.bufOff, bufs, b, peak, planMax)
    ensures off == FirstFit(bufs, p.bufOff[..b], 0)
  {
    ghost var offs := p.bufOff[..b];
    assert forall k :: 0 <= k < b ==> p.bufOff[k] + bufs[k].size <= planMax;
    hide PlacedFirst, FirstFit;
    off := 0;
    var moved := true;
    while moved
      invariant off <= planMax
      invariant forall x :: 0 <= x < off ==> !Free(bufs, offs, x)
      invariant !moved ==> Free(bufs, offs, off)
      decreases planMax - off, moved
    {
      moved := false;
      ghost var off0 := off;
      for o := 0 to b
        invariant off0 <= off <= planMax && (moved <==> off0 < off)
        invariant forall x :: 0 <= x < off ==> !Free(bufs, offs, x)
        invariant !moved ==> forall k :: 0 <= k < o ==> !Clash(bufs, offs, off, k)
      {
        var timeOverlap := p.def[b] <= p.last[o] && p.def[o] <= p.last[b];
        var addrOverlap := off < p.bufOff[o] + p.bufSize[o] && p.bufOff[o] < off + p.bufSize[b];
        assert (timeOverlap && addrOverlap) == Clash(bufs, offs, off, o);
        if timeOverlap && addrOverlap {
          var end := p.bufOff[o] + p.bufSize[o];
          forall x | off <= x < end ensures !Free(bufs, offs, x) {
            assert Clash(bufs, offs, x, o);
          }
          off := end;
          moved := true;
        }
      }
    }
  }

  lemma OffsetsStep(bufs: seq<Buffer>, offs: seq<nat>, b: nat, off: nat)
    requires b < |bufs| && offs == Offsets(bufs, b) && off == FirstFit(bufs, offs, 0)
    ensures offs + [off] == Offsets(bufs, b + 1)
    ensures Peak(bufs, offs + [off]) ==
            if off + bufs[b].size > Peak(bufs, offs) then off + bufs[b].size else Peak(bufs, offs)
  {
    hide FirstFit;
    assert (offs + [off])[..b] == offs;
  }

  lemma OffsetStays(bufs: seq<Buffer>, b: nat, off: nat)
    requires b < |bufs| && off == FirstFit(bufs, Offsets(bufs, b), 0)
    ensures Offsets(bufs, |bufs|)[b] == off
  {
    hide FirstFit;
    OffsetsPrefix(bufs, b + 1, |bufs|);
    assert Offsets(bufs, |bufs|)[b] == Offsets(bufs, |bufs|)[..b + 1][b];
  }

  method PlaceBuffers(p0: ModelPlan, ghost m: Model, actMax: nat, planMax: nat)
    returns (err: Option<Errno>, p: ModelPlan)
    requires Describes(p0, m) && WellFormed(m, actMax)
    ensures Tables(p)
    ensures if Fits(Buffers(m), planMax, |m.layers| + 1)
            then err == None && Planned(p, m, planMax) && p.model == p0.model
            else err == Some(ENOMEM)
    // The same in terms of the layers alone.
    ensures err == if LeastFits(m, planMax) then None else Some(ENOMEM)
    ensures err == None ==> PlanOk(p, m)
  {
    FitsIffLeastFits(m, actMax, planMax);
    hide LeastFits, PlanOk;
    p := ComputeLifetimes(p0, m, actMax);
    var naive := SumOfSizes(p, Buffers(m));
    p := p.(naivePeak := naive);
    err, p := PlaceAll(p, Buffers(m), planMax);
    if err == None {
      assert forall b :: 0 <= b <= |m.layers| ==> Offsets(Buffers(m), |m.layers| + 1)[b] == p.bufOff[b];
      PlannedIsOk(p, m, actMax, planMax);
    }
  }

  // The first k buffer tables of p hold bufs.
  predicate HoldsBuffers(p: ModelPlan, bufs: seq<Buffer>) {
    && Tables(p) && |bufs| == p.layerCount + 1 <= NBUF
    && forall k :: 0 <= k < |bufs| ==> bufs[k] == Buffer(p.bufSize[k], p.def[k], p.last[k])
  }

  // The first b buffers are placed and fit.
  ghost predicate PlacedFirst(offs: seq<nat>, bufs: seq<Buffer>, b: nat, peak: nat, planMax: nat) {
    && b <= |bufs| <= |offs|
    && offs[..b] == Offsets(bufs, b)
    && peak == Peak(bufs, offs[..b])
    && forall k :: 0 <= k < b ==> offs[k] + bufs[k].size <= planMax
  }

  lemma PlacedNext(offs: seq<nat>, bufs: seq<Buffer>, b: nat, peak: nat, planMax: nat, off: nat)
    requires PlacedFirst(offs, bufs, b, peak, planMax) && b < |bufs|
    requires off == FirstFit(bufs, offs[..b], 0)
    ensures off + bufs[b].size > planMax ==> !Fits(bufs, planMax, |bufs|)
    ensures off + bufs[b].size <= planMax ==>
              PlacedFirst(offs[b := off], bufs, b + 1,
                          if off + bufs[b].size > peak then off + bufs[b].size else peak, planMax)
  {
    OffsetsStep(bufs, offs[..b], b, off);
    OffsetStays(bufs, b, off);
    hide Offsets, FirstFit, Peak;
    assert offs[b := off][..b + 1] == offs[..b] + [off];
  }

  lemma PlacedAll(offs: seq<nat>, bufs: seq<Buffer>, peak: nat, planMax: nat)
    requires PlacedFirst(offs, bufs, |bufs|, peak, planMax)
    ensures Fits(bufs, planMax, |bufs|)
    ensures offs[..|bufs|] == Offsets(bufs, |bufs|) && peak == Peak(bufs, Offsets(bufs, |bufs|))
  {
    hide Offsets;
  }

  // One round of the placement loop.
  method PlaceOne(p0: ModelPlan, b: nat, ghost bufs: seq<Buffer>, planMax: nat, peak0: nat)
    returns (fits: bool, p: ModelPlan, peak: nat)
    requires HoldsBuffers(p0, bufs) && b < |bufs| && PlacedFirst(p0.bufOff, bufs, b, peak0, planMax)
    ensures p == p0.(bufOff := p.bufOff) && HoldsBuffers(p, bufs)
    ensures if fits then PlacedFirst(p.bufOff, bufs, b + 1, peak, planMax) else !Fits(bufs, planMax, |bufs|)
  {
    p, peak := p0, peak0;
    hide Offsets, FirstFit, Peak, PlacedFirst, Fits;
    var off := BumpPast(p, b, planMax, bufs, peak);
    BufOffLength(p.bufOff, bufs, b, peak, planMax);
    PlacedNext(p.bufOff, bufs, b, peak, planMax, off);
    fits := off + p.bufSize[b] <= planMax;
    if fits {
      p := p.(bufOff := p.bufOff[b := off]);
      if off + p.bufSize[b] > peak {
        peak := off + p.bufSize[b];
      }
    }
  }

  lemma BufOffLength(offs: seq<nat>, bufs: seq<Buffer>, b: nat, peak: nat, planMax: nat)
    requires PlacedFirst(offs, bufs, b, peak, planMax)
    ensures b <= |bufs| <= |offs| && offs[..b] == Offsets(bufs, b)
  {
  }

  // The placement loop of place_buffers.
  method PlaceAll(p0: ModelPlan, ghost bufs: seq<Buffer>, planMax: nat)
    returns (err: Option<Errno>, p: ModelPlan)
    requires HoldsBuffers(p0, bufs)
    ensures Tables(p) && p == p0.(bufOff := p.bufOff, plannedPeak := p.plannedPeak)
    ensures err == if Fits(bufs, planMax, |bufs|) then None else Some(ENOMEM)
    ensures err == None ==> p.bufOff[..|bufs|] == Offsets(bufs, |bufs|) &&
                            p.plannedPeak == Peak(bufs, Offsets(bufs, |bufs|))
  {
    p := p0;
    var nbuf := p.layerCount + 1;
    var peak: nat := 0;
    assert PlacedFirst(p.bufOff, bufs, 0, 0, planMax);
    HeldTables(p0, bufs);
    hide Offsets, FirstFit, Peak, PlacedFirst, Fits, HoldsBuffers;
    for b := 0 to nbuf
      invariant p == p0.(bufOff := p.bufOff) && HoldsBuffers(p, bufs)
      invariant PlacedFirst(p.bufOff, bufs, b, peak, planMax)
    {
      var fits;
      fits, p, peak := PlaceOne(p, b, bufs, planMax, peak);
      if !fits {
        HeldTables(p, bufs);
        return Some(ENOMEM), p;
      }
    }
    HeldTables(p, bufs);
    PlacedAll(p.bufOff, bufs, peak, planMax);
    p := p.(plannedPeak := peak);
    err := None;
  }

  lemma HeldTables(p: ModelPlan, bufs: seq<Buffer>)
    requires HoldsBuffers(p, bufs)
    ensures Tables(p) && |bufs| == p.layerCount + 1 <= NBUF
  {
  }
}
