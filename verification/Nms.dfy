// Greedy per-class non-maximum suppression over detection boxes. Floats are reals, so
// scores are totally ordered and rounding plays no part.
module Nms {
  import opened Errno

  const NMS_MAX_BOXES := 64
  const BBOX_SIZE := 24

  datatype BBox = BBox(x1: real, y1: real, x2: real, y2: real, score: real, classId: real)

  datatype NmsConfig = NmsConfig(iouThreshold: real, scoreThreshold: real, maxBoxes: nat)

  function Max(a: real, b: real): real {
    if a > b then a else b
  }

  function Min(a: real, b: real): real {
    if a < b then a else b
  }

  function Area(b: BBox): real {
    (b.x2 - b.x1) * (b.y2 - b.y1)
  }

  function BoxIou(a: BBox, b: BBox): real {
    var iw := Min(a.x2, b.x2) - Max(a.x1, b.x1);
    var ih := Min(a.y2, b.y2) - Max(a.y1, b.y1);
    if iw <= 0.0 || ih <= 0.0 then 0.0
    else Ratio(Overlap(iw, ih), Area(a), Area(b))
  }

  function Overlap(iw: real, ih: real): real {
    iw * ih
  }

  function Ratio(inter: real, areaA: real, areaB: real): real {
    var union := areaA + areaB - inter;
    if union > 0.0 then inter / union else 0.0
  }

  lemma ProductBound(w: real, h: real, iw: real, ih: real)
    requires 0.0 < iw <= w && 0.0 < ih <= h
    ensures 0.0 < iw * ih <= w * h
  {
    assert iw * ih <= w * ih;
    assert w * ih <= w * h;
  }

  lemma RatioBound(inter: real, areaA: real, areaB: real)
    requires 0.0 < inter <= areaA && inter <= areaB
    ensures 0.0 <= Ratio(inter, areaA, areaB) <= 1.0
  {
    QuotientBound(inter, areaA + areaB - inter);
  }

  lemma QuotientBound(a: real, b: real)
    requires 0.0 <= a <= b && b > 0.0
    ensures 0.0 <= a / b <= 1.0
  {
  }

  // Overlap is a ratio.
  lemma IouIsARatio(a: BBox, b: BBox)
    ensures 0.0 <= BoxIou(a, b) <= 1.0
  {
    hide Area, Ratio, Overlap;
    var iw := Min(a.x2, b.x2) - Max(a.x1, b.x1);
    var ih := Min(a.y2, b.y2) - Max(a.y1, b.y1);
    if iw > 0.0 && ih > 0.0 {
      InsideArea(a, iw, ih);
      InsideArea(b, iw, ih);
      RatioBound(Overlap(iw, ih), Area(a), Area(b));
    }
  }

  lemma InsideArea(b: BBox, iw: real, ih: real)
    requires 0.0 < iw <= b.x2 - b.x1 && 0.0 < ih <= b.y2 - b.y1
    ensures 0.0 < Overlap(iw, ih) <= Area(b)
  {
    ProductBound(b.x2 - b.x1, b.y2 - b.y1, iw, ih);
  }

  // It does not matter which of two boxes suppresses the other.
  lemma IouIsSymmetric(a: BBox, b: BBox)
    ensures BoxIou(a, b) == BoxIou(b, a)
  {
    hide Area;
  }

  // ---- what the overlap says of two boxes ----

  // A box with an inside.
  predicate Proper(b: BBox) {
    b.x1 < b.x2 && b.y1 < b.y2
  }

  predicate Inside(b: BBox, x: real, y: real) {
    b.x1 < x < b.x2 && b.y1 < y < b.y2
  }

  predicate SameCorners(a: BBox, b: BBox) {
    a.x1 == b.x1 && a.y1 == b.y1 && a.x2 == b.x2 && a.y2 == b.y2
  }

  // It is zero exactly when no point lies inside both.
  lemma IouZeroIff(a: BBox, b: BBox)
    ensures BoxIou(a, b) == 0.0 <==> !exists x, y :: Inside(a, x, y) && Inside(b, x, y)
  {
    var iw := Min(a.x2, b.x2) - Max(a.x1, b.x1);
    var ih := Min(a.y2, b.y2) - Max(a.y1, b.y1);
    if iw > 0.0 && ih > 0.0 {
      var x, y := Max(a.x1, b.x1) + iw / 2.0, Max(a.y1, b.y1) + ih / 2.0;
      assert Inside(a, x, y) && Inside(b, x, y);
      InsideArea(a, iw, ih);
      InsideArea(b, iw, ih);
      hide Area, Overlap;
      QuotientPositive(Overlap(iw, ih), Area(a) + Area(b) - Overlap(iw, ih));
    }
  }

  lemma QuotientPositive(a: real, b: real)
    requires 0.0 < a && 0.0 < b
    ensures a / b > 0.0
  {
  }

  // The common box, when there is one.
  function Common(a: BBox, b: BBox): BBox {
    BBox(Max(a.x1, b.x1), Max(a.y1, b.y1), Min(a.x2, b.x2), Min(a.y2, b.y2), a.score, a.classId)
  }

  // Otherwise it is the area of the common box as a part of the area the two cover, which
  // counts the common box once.
  lemma IouIsPartOfCover(a: BBox, b: BBox)
    requires Proper(Common(a, b))
    ensures var covered := Area(a) + Area(b) - Area(Common(a, b));
            && covered > 0.0 && BoxIou(a, b) * covered == Area(Common(a, b))
  {
    var iw := Min(a.x2, b.x2) - Max(a.x1, b.x1);
    var ih := Min(a.y2, b.y2) - Max(a.y1, b.y1);
    assert Area(Common(a, b)) == Overlap(iw, ih);
    InsideArea(a, iw, ih);
    InsideArea(b, iw, ih);
    hide Area, Overlap;
    QuotientTimes(Overlap(iw, ih), Area(a) + Area(b) - Overlap(iw, ih));
  }

  lemma QuotientTimes(a: real, b: real)
    requires b > 0.0
    ensures a / b * b == a
  {
  }

  // A box inside another overlaps it by the quotient of their areas; so a box and itself
  // by 1.
  lemma IouOfInner(a: BBox, b: BBox)
    requires Proper(a) && b.x1 <= a.x1 && a.x2 <= b.x2 && b.y1 <= a.y1 && a.y2 <= b.y2
    ensures Area(b) > 0.0 && BoxIou(a, b) == Area(a) / Area(b)
    ensures SameCorners(a, b) ==> BoxIou(a, b) == 1.0
  {
    var w, h := a.x2 - a.x1, a.y2 - a.y1;
    assert Overlap(w, h) == Area(a);
    InsideArea(a, w, h);
    InsideArea(b, w, h);
    hide Area, Overlap;
    if SameCorners(a, b) {
      SameArea(a, b);
      QuotientOfSame(Area(a));
    }
  }

  lemma SameArea(a: BBox, b: BBox)
    requires SameCorners(a, b)
    ensures Area(a) == Area(b)
  {
  }

  lemma QuotientOfSame(a: real)
    requires a > 0.0
    ensures a / a == 1.0
  {
  }

  // Only boxes with the same corners overlap by 1.
  lemma IouOneIff(a: BBox, b: BBox)
    requires Proper(a) && Proper(b)
    ensures BoxIou(a, b) == 1.0 <==> SameCorners(a, b)
  {
    var iw := Min(a.x2, b.x2) - Max(a.x1, b.x1);
    var ih := Min(a.y2, b.y2) - Max(a.y1, b.y1);
    if SameCorners(a, b) {
      IouOfInner(a, b);
    } else if iw > 0.0 && ih > 0.0 {
      hide Area, Overlap;
      OverlapFallsShort(a, b, iw, ih);
      QuotientTimes(Overlap(iw, ih), Area(a) + Area(b) - Overlap(iw, ih));
    }
  }

  // The common box of two that differ is smaller than one of them.
  lemma OverlapFallsShort(a: BBox, b: BBox, iw: real, ih: real)
    requires iw == Min(a.x2, b.x2) - Max(a.x1, b.x1) > 0.0 && ih == Min(a.y2, b.y2) - Max(a.y1, b.y1) > 0.0
    requires !SameCorners(a, b)
    ensures 0.0 < Overlap(iw, ih) && 2.0 * Overlap(iw, ih) < Area(a) + Area(b)
  {
    hide Area, Overlap;
    InsideArea(a, iw, ih);
    InsideArea(b, iw, ih);
    if iw < a.x2 - a.x1 || ih < a.y2 - a.y1 {
      ShortOf(a, iw, ih);
    } else {
      ShortOf(b, iw, ih);
    }
  }

  lemma ShortOf(b: BBox, iw: real, ih: real)
    requires 0.0 < iw <= b.x2 - b.x1 && 0.0 < ih <= b.y2 - b.y1 && (iw < b.x2 - b.x1 || ih < b.y2 - b.y1)
    ensures Overlap(iw, ih) < Area(b)
  {
    SmallerArea(b.x2 - b.x1, b.y2 - b.y1, iw, ih);
  }

  lemma SmallerArea(w: real, h: real, iw: real, ih: real)
    requires 0.0 < iw <= w && 0.0 < ih <= h && (iw < w || ih < h)
    ensures iw * ih < w * h
  {
    assert iw * ih <= w * ih <= w * h;
    if iw < w {
      assert iw * ih < w * ih;
    } else {
      assert w * ih < w * h;
    }
  }

  // ---- candidate order ----

  // Descending score, first come first on ties.
  predicate Before(boxes: seq<BBox>, a: nat, b: nat)
    requires a < |boxes| && b < |boxes|
  {
    boxes[a].score > boxes[b].score || (boxes[a].score == boxes[b].score && a < b)
  }

  // order lists exactly the boxes among the first k at or above the threshold, in that order.
  ghost predicate IsOrder(boxes: seq<BBox>, threshold: real, k: nat, order: seq<nat>)
    requires k <= |boxes|
  {
    && (forall p :: 0 <= p < |order| ==> order[p] < k && boxes[order[p]].score >= threshold)
    && (forall i :: 0 <= i < k && boxes[i].score >= threshold ==> i in order)
    && forall p, q :: 0 <= p < q < |order| ==> Before(boxes, order[p], order[q])
  }

  // At most one sequence does: position by position, any two agree.
  lemma {:induction false} OrderIsUnique(boxes: seq<BBox>, threshold: real, k: nat, a: seq<nat>, b: seq<nat>, p: nat)
    requires k <= |boxes| && IsOrder(boxes, threshold, k, a) && IsOrder(boxes, threshold, k, b)
    requires p < |a|
    ensures p < |b| && a[p] == b[p]
    decreases p
  {
    forall q | 0 <= q < p ensures q < |b| && a[q] == b[q] {
      OrderIsUnique(boxes, threshold, k, a, b, q);
    }
    OrderIsDistinct(boxes, threshold, k, a);
    OrderIsDistinct(boxes, threshold, k, b);
    assert a[p] in b;
    var i :| 0 <= i < |b| && b[i] == a[p];
    assert p <= i;
    assert b[p] in a;
    var j :| 0 <= j < |a| && a[j] == b[p];
    assert p <= j;
    CrossedPositions(boxes, a[p], b[p], p < i, p < j);
  }

  lemma OrderIsDistinct(boxes: seq<BBox>, threshold: real, k: nat, s: seq<nat>)
    requires k <= |boxes| && IsOrder(boxes, threshold, k, s)
    ensures forall p, q :: 0 <= p < q < |s| ==> s[p] != s[q]
  {
    forall p, q | 0 <= p < q < |s| ensures s[p] != s[q] {
      assert Before(boxes, s[p], s[q]);
    }
  }

  // Were they different, each would come before the other.
  lemma CrossedPositions(boxes: seq<BBox>, x: nat, y: nat, yFirst: bool, xFirst: bool)
    requires x < |boxes| && y < |boxes|
    requires yFirst ==> Before(boxes, y, x)
    requires xFirst ==> Before(boxes, x, y)
    requires !yFirst || !xFirst ==> x == y
    ensures x == y
  {
  }

  lemma InsertedDescends(boxes: seq<BBox>, i: nat, order: seq<nat>, pos: nat)
    requires i < |boxes| && pos <= |order|
    requires forall p :: 0 <= p < |order| ==> order[p] < i
    requires forall p, q :: 0 <= p < q < |order| ==> Before(boxes, order[p], order[q])
    requires pos > 0 ==> boxes[order[pos - 1]].score >= boxes[i].score
    requires forall q :: pos <= q < |order| ==> boxes[order[q]].score < boxes[i].score
    ensures var r := order[..pos] + [i] + order[pos..];
            forall p, q :: 0 <= p < q < |r| ==> r[p] <= i && r[q] <= i && Before(boxes, r[p], r[q])
  {
    var r := order[..pos] + [i] + order[pos..];
    forall p, q | 0 <= p < q < |r| ensures r[p] <= i && r[q] <= i && Before(boxes, r[p], r[q]) {
      if q < pos || pos < p {
      } else if q == pos {
        if p < pos - 1 {
          assert Before(boxes, order[p], order[pos - 1]);
        }
      } else if p < pos {
        assert Before(boxes, order[p], order[q - 1]);
      }
    }
  }

  lemma InsertKeepsOrder(boxes: seq<BBox>, threshold: real, i: nat, order: seq<nat>, pos: nat)
    requires i < |boxes| && IsOrder(boxes, threshold, i, order) && pos <= |order|
    requires boxes[i].score >= threshold
    requires pos > 0 ==> boxes[order[pos - 1]].score >= boxes[i].score
    requires forall q :: pos <= q < |order| ==> boxes[order[q]].score < boxes[i].score
    ensures IsOrder(boxes, threshold, i + 1, order[..pos] + [i] + order[pos..])
  {
    hide Before;
    var r := order[..pos] + [i] + order[pos..];
    InsertedDescends(boxes, i, order, pos);
    forall j | 0 <= j < i + 1 && boxes[j].score >= threshold ensures j in r {
      if j < i {
        var p :| 0 <= p < |order| && order[p] == j;
        assert r[if p < pos then p else p + 1] == j;
      } else {
        assert r[pos] == i;
      }
    }
  }

  lemma InOrder(boxes: seq<BBox>, threshold: real, k: nat, order: seq<nat>)
    requires k <= |boxes| && IsOrder(boxes, threshold, k, order)
    ensures forall p :: 0 <= p < |order| ==> order[p] < k
  {
  }

  // The insertion step: shift lower scores up and return the gap.
  method MakeRoom(boxes: seq<BBox>, order: array<nat>, numCand: nat, i: nat) returns (pos: nat)
    requires i < |boxes| && numCand < order.Length
    requires forall p :: 0 <= p < numCand ==> order[p] < |boxes|
    modifies order
    ensures pos <= numCand
    ensures forall q :: 0 <= q < pos ==> order[q] == old(order[q])
    ensures forall q :: pos < q <= numCand ==> order[q] == old(order[q - 1])
    ensures pos > 0 ==> boxes[old(order[pos - 1])].score >= boxes[i].score
    ensures forall q :: pos <= q < numCand ==> boxes[old(order[q])].score < boxes[i].score
  {
    pos := numCand;
    while pos > 0 && boxes[order[pos - 1]].score < boxes[i].score
      invariant 0 <= pos <= numCand
      invariant forall q :: 0 <= q < pos ==> order[q] == old(order[q])
      invariant forall q :: pos < q <= numCand ==> order[q] == old(order[q - 1])
      invariant forall q :: pos <= q < numCand ==> boxes[old(order[q])].score < boxes[i].score
    {
      order[pos] := order[pos - 1];
      pos := pos - 1;
    }
  }

  method InsertCandidate(boxes: seq<BBox>, order: array<nat>, numCand: nat, i: nat, threshold: real)
    requires i < |boxes| && numCand < order.Length && boxes[i].score >= threshold
    requires IsOrder(boxes, threshold, i, order[..numCand])
    modifies order
    ensures IsOrder(boxes, threshold, i + 1, order[..numCand + 1])
  {
    ghost var before := order[..numCand];
    InOrder(boxes, threshold, i, before);
    hide IsOrder, Before;
    assert forall p :: 0 <= p < numCand ==> order[p] == before[p];
    var pos := MakeRoom(boxes, order, numCand, i);
    order[pos] := i;
    InsertKeepsOrder(boxes, threshold, i, before, pos);
    Spliced(before, order[..numCand + 1], pos, i);
  }

  lemma Spliced(before: seq<nat>, after: seq<nat>, pos: nat, i: nat)
    requires pos <= |before| && |after| == |before| + 1 && after[pos] == i
    requires forall q :: 0 <= q < pos ==> after[q] == before[q]
    requires forall q :: pos < q <= |before| ==> after[q] == before[q - 1]
    ensures after == before[..pos] + [i] + before[pos..]
  {
  }

  lemma OrderSkips(boxes: seq<BBox>, threshold: real, i: nat, order: seq<nat>)
    requires i < |boxes| && IsOrder(boxes, threshold, i, order) && boxes[i].score < threshold
    ensures IsOrder(boxes, threshold, i + 1, order)
  {
  }

  method SortCandidates(boxes: seq<BBox>, threshold: real, order: array<nat>) returns (numCand: nat)
    requires |boxes| <= order.Length
    modifies order
    ensures numCand <= |boxes| && IsOrder(boxes, threshold, |boxes|, order[..numCand])
  {
    numCand := 0;
    for i := 0 to |boxes|
      invariant numCand <= i && IsOrder(boxes, threshold, i, order[..numCand])
    {
      if boxes[i].score < threshold {
        OrderSkips(boxes, threshold, i, order[..numCand]);
      } else {
        InsertCandidate(boxes, order, numCand, i, threshold);
        numCand := numCand + 1;
      }
    }
  }

  // ---- the greedy choice ----

  predicate Suppresses(cfg: NmsConfig, a: BBox, b: BBox) {
    b.classId == a.classId && BoxIou(a, b) > cfg.iouThreshold
  }

  // A copy of a box is suppressed by any threshold below 1, and a box that shares no point
  // with it by none from 0 up.
  lemma CopiesAndStrangers(cfg: NmsConfig, a: BBox, b: BBox)
    requires Proper(a) && Proper(b) && a.classId == b.classId
    ensures SameCorners(a, b) && cfg.iouThreshold < 1.0 ==> Suppresses(cfg, a, b)
    ensures cfg.iouThreshold >= 0.0 && (!exists x, y :: Inside(a, x, y) && Inside(b, x, y)) ==> !Suppresses(cfg, a, b)
  {
    IouOneIff(a, b);
    IouZeroIff(a, b);
    hide BoxIou;
  }

  // cands are the candidates in order. A candidate is kept unless a kept one before it
  // suppresses it.
  predicate IsKept(cfg: NmsConfig, cands: seq<BBox>, i: nat)
    requires i < |cands|
    decreases i
  {
    forall j :: 0 <= j < i ==> IsKept(cfg, cands, j) ==> !Suppresses(cfg, cands[j], cands[i])
  }

  // The kept ones among the first k candidates, in order: the answer without limits.
  function Greedy(cfg: NmsConfig, cands: seq<BBox>, k: nat): (r: seq<BBox>)
    requires k <= |cands|
    ensures |r| <= k
  {
    if k == 0 then []
    else Greedy(cfg, cands, k - 1) + if IsKept(cfg, cands, k - 1) then [cands[k - 1]] else []
  }

  lemma {:induction false} GreedyPrefix(cfg: NmsConfig, cands: seq<BBox>, j: nat, k: nat)
    requires j <= k <= |cands|
    ensures Greedy(cfg, cands, j) <= Greedy(cfg, cands, k)
  {
    if j < k {
      GreedyPrefix(cfg, cands, j, k - 1);
    }
  }

  // Where each kept box came from.
  lemma {:induction false} GreedySource(cfg: NmsConfig, cands: seq<BBox>, k: nat, p: nat) returns (i: nat)
    requires k <= |cands| && p < |Greedy(cfg, cands, k)|
    ensures i < k && IsKept(cfg, cands, i) && Greedy(cfg, cands, k)[p] == cands[i]
    ensures |Greedy(cfg, cands, i)| == p
  {
    if p < |Greedy(cfg, cands, k - 1)| {
      i := GreedySource(cfg, cands, k - 1, p);
    } else {
      i := k - 1;
    }
  }

  lemma {:induction false} GreedyGrows(cfg: NmsConfig, cands: seq<BBox>, i: nat, j: nat)
    requires i <= j <= |cands|
    ensures |Greedy(cfg, cands, i)| <= |Greedy(cfg, cands, j)|
  {
    GreedyPrefix(cfg, cands, i, j);
  }

  ghost predicate Descending(cands: seq<BBox>) {
    forall i, j :: 0 <= i < j < |cands| ==> cands[i].score >= cands[j].score
  }

  // The answer without limits is what suppression promises.
  lemma GreedyIsSuppression(cfg: NmsConfig, cands: seq<BBox>)
    requires Descending(cands)
    ensures var kept := Greedy(cfg, cands, |cands|);
            && Descending(kept)
            && (forall p, q :: 0 <= p < q < |kept| ==> !Suppresses(cfg, kept[p], kept[q]))
            && forall i :: 0 <= i < |cands| && !IsKept(cfg, cands, i) ==>
                 exists j :: 0 <= j < i && IsKept(cfg, cands, j) && Suppresses(cfg, cands[j], cands[i]) &&
                             cands[j].score >= cands[i].score && cands[j] in kept
  {
    var n := |cands|;
    var kept := Greedy(cfg, cands, n);
    forall p, q | 0 <= p < q < |kept|
      ensures kept[p].score >= kept[q].score && !Suppresses(cfg, kept[p], kept[q])
    {
      var i := GreedySource(cfg, cands, n, p);
      var j := GreedySource(cfg, cands, n, q);
      if j <= i {
        GreedyGrows(cfg, cands, j, i);
      }
    }
    forall i | 0 <= i < n && !IsKept(cfg, cands, i)
      ensures exists j :: 0 <= j < i && IsKept(cfg, cands, j) && Suppresses(cfg, cands[j], cands[i]) &&
                          cands[j].score >= cands[i].score && cands[j] in kept
    {
      var j :| 0 <= j < i && IsKept(cfg, cands, j) && Suppresses(cfg, cands[j], cands[i]);
      KeptIsListed(cfg, cands, j);
    }
  }

  lemma KeptIsListed(cfg: NmsConfig, cands: seq<BBox>, j: nat)
    requires j < |cands| && IsKept(cfg, cands, j)
    ensures cands[j] in Greedy(cfg, cands, |cands|)
  {
    GreedyPrefix(cfg, cands, j + 1, |cands|);
    var p := |Greedy(cfg, cands, j)|;
    assert Greedy(cfg, cands, j + 1)[p] == cands[j];
    assert Greedy(cfg, cands, |cands|)[p] == cands[j];
  }

  function Candidates(boxes: seq<BBox>, order: seq<nat>): (r: seq<BBox>)
    requires forall p :: 0 <= p < |order| ==> order[p] < |boxes|
    ensures |r| == |order|
  {
    seq(|order|, p requires 0 <= p < |order| => boxes[order[p]])
  }

  lemma CandidatesDescend(boxes: seq<BBox>, threshold: real, order: seq<nat>)
    requires IsOrder(boxes, threshold, |boxes|, order)
    ensures Descending(Candidates(boxes, order))
  {
    var c := Candidates(boxes, order);
    forall i, j | 0 <= i < j < |c| ensures c[i].score >= c[j].score {
      assert Before(boxes, order[i], order[j]);
    }
  }

  // What the caller gets in out, of the answer all without limits: boxes above the
  // threshold, best first, no two of one class overlapping too much; every other box
  // above the threshold is suppressed by a kept one that scores no less, and a kept box
  // that the limits cut off scores no more than any that was written.
  ghost predicate Guaranteed(cfg: NmsConfig, boxes: seq<BBox>, all: seq<BBox>, out: seq<BBox>) {
    && out <= all && Descending(all)
    && (forall b :: b in all ==> b in boxes && b.score >= cfg.scoreThreshold)
    && (forall p, q :: 0 <= p < q < |all| ==> !Suppresses(cfg, all[p], all[q]))
    && (forall b :: b in boxes && b.score >= cfg.scoreThreshold ==> b in all || IsSuppressed(cfg, all, b))
  }

  ghost predicate IsSuppressed(cfg: NmsConfig, all: seq<BBox>, b: BBox) {
    exists a :: a in all && Suppresses(cfg, a, b) && a.score >= b.score
  }

  lemma WrittenIsGuaranteed(cfg: NmsConfig, boxes: seq<BBox>, order: seq<nat>, n: nat)
    requires IsOrder(boxes, cfg.scoreThreshold, |boxes|, order)
    requires n <= |Greedy(cfg, Candidates(boxes, order), |order|)|
    ensures var all := Greedy(cfg, Candidates(boxes, order), |order|); Guaranteed(cfg, boxes, all, all[..n])
  {
    var cands := Candidates(boxes, order);
    var all := Greedy(cfg, cands, |order|);
    CandidatesDescend(boxes, cfg.scoreThreshold, order);
    GreedyIsSuppression(cfg, cands);
    hide Greedy, IsKept, Suppresses, Before, IsOrder, Candidates, Descending;
    KeptAreBoxes(cfg, boxes, order);
    OthersAreSuppressed(cfg, boxes, order);
  }

  lemma KeptAreBoxes(cfg: NmsConfig, boxes: seq<BBox>, order: seq<nat>)
    requires IsOrder(boxes, cfg.scoreThreshold, |boxes|, order)
    ensures forall b :: b in Greedy(cfg, Candidates(boxes, order), |order|) ==>
              b in boxes && b.score >= cfg.scoreThreshold
  {
    var cands := Candidates(boxes, order);
    var all := Greedy(cfg, cands, |order|);
    hide Greedy, IsKept;
    forall b | b in all ensures b in boxes && b.score >= cfg.scoreThreshold {
      var p :| 0 <= p < |all| && all[p] == b;
      var i := GreedySource(cfg, cands, |cands|, p);
      assert cands[i] == boxes[order[i]];
    }
  }

  lemma OthersAreSuppressed(cfg: NmsConfig, boxes: seq<BBox>, order: seq<nat>)
    requires IsOrder(boxes, cfg.scoreThreshold, |boxes|, order)
    ensures var all := Greedy(cfg, Candidates(boxes, order), |order|);
            forall b :: b in boxes && b.score >= cfg.scoreThreshold ==> b in all || IsSuppressed(cfg, all, b)
  {
    var cands := Candidates(boxes, order);
    var all := Greedy(cfg, cands, |order|);
    CandidatesDescend(boxes, cfg.scoreThreshold, order);
    GreedyIsSuppression(cfg, cands);
    hide Greedy, IsKept, Suppresses, Descending;
    forall b | b in boxes && b.score >= cfg.scoreThreshold ensures b in all || IsSuppressed(cfg, all, b) {
      var k :| 0 <= k < |boxes| && boxes[k] == b;
      assert k in order;
      var i :| 0 <= i < |order| && order[i] == k;
      assert cands[i] == b;
      if IsKept(cfg, cands, i) {
        KeptIsListed(cfg, cands, i);
      } else {
        var j :| 0 <= j < i && IsKept(cfg, cands, j) && Suppresses(cfg, cands[j], cands[i]) &&
                 cands[j].score >= cands[i].score && cands[j] in all;
      }
    }
  }

  // What the limits leave: at most maxBoxes, and no more than fit in the output bytes.
  function Limit(kept: nat, maxBoxes: nat, outSize: nat): nat {
    var fit := outSize / BBOX_SIZE;
    var cap := if maxBoxes < fit then maxBoxes else fit;
    if kept < cap then kept else cap
  }

  lemma LimitIsTight(kept: nat, maxBoxes: nat, outSize: nat)
    ensures var n := Limit(kept, maxBoxes, outSize);
            && n <= kept && n <= maxBoxes && n * BBOX_SIZE <= outSize
            && (n == kept || n == maxBoxes || (n + 1) * BBOX_SIZE > outSize)
  {
  }

  // Marks what candidate i suppresses among the later ones.
  method Suppress(cfg: NmsConfig, cands: seq<BBox>, suppressed: array<bool>, i: nat)
    requires i < |cands| <= suppressed.Length
    modifies suppressed
    ensures forall j :: 0 <= j < suppressed.Length ==>
      suppressed[j] == (old(suppressed[j]) || (i < j < |cands| && Suppresses(cfg, cands[i], cands[j])))
  {
    for j := i + 1 to |cands|
      invariant forall k :: 0 <= k < suppressed.Length ==>
        suppressed[k] == (old(suppressed[k]) || (i < k < j && Suppresses(cfg, cands[i], cands[k])))
    {
      if !suppressed[j] {
        if cands[j].classId == cands[i].classId && BoxIou(cands[i], cands[j]) > cfg.iouThreshold {
          suppressed[j] := true;
        }
      }
    }
  }

  // The flags after the first i candidates: later ones that a kept one suppresses.
  ghost predicate Flagged(cfg: NmsConfig, cands: seq<BBox>, flags: seq<bool>, i: nat)
    requires i <= |cands| == |flags|
  {
    forall j :: i <= j < |cands| ==>
      (flags[j] <==> exists k :: 0 <= k < i && IsKept(cfg, cands, k) && Suppresses(cfg, cands[k], cands[j]))
  }

  lemma FlagDecides(cfg: NmsConfig, cands: seq<BBox>, flags: seq<bool>, i: nat)
    requires i < |cands| == |flags| && Flagged(cfg, cands, flags, i)
    ensures IsKept(cfg, cands, i) <==> !flags[i]
    ensures !IsKept(cfg, cands, i) ==> Flagged(cfg, cands, flags, i + 1)
  {
  }

  lemma FlagsAfter(cfg: NmsConfig, cands: seq<BBox>, flags: seq<bool>, flags': seq<bool>, i: nat)
    requires i < |cands| == |flags| == |flags'| && Flagged(cfg, cands, flags, i) && IsKept(cfg, cands, i)
    requires forall j :: i < j < |cands| ==>
      flags'[j] == (flags[j] || Suppresses(cfg, cands[i], cands[j]))
    ensures Flagged(cfg, cands, flags', i + 1)
  {
  }

  lemma CapacityLimit(kept: nat, numKept: nat, maxBoxes: nat, outSize: nat)
    requires numKept <= kept && numKept <= maxBoxes && numKept * BBOX_SIZE <= outSize
    requires numKept == kept || numKept == maxBoxes || (numKept + 1) * BBOX_SIZE > outSize
    ensures numKept == Limit(kept, maxBoxes, outSize)
  {
  }

  method PickGreedy(cfg: NmsConfig, cands: seq<BBox>, kept: array<BBox>, outSize: nat) returns (numKept: nat)
    requires outSize <= kept.Length * BBOX_SIZE
    modifies kept
    ensures var all := Greedy(cfg, cands, |cands|);
            && numKept == Limit(|all|, cfg.maxBoxes, outSize) <= |all|
            && numKept <= kept.Length
            && kept[..numKept] == all[..numKept]
  {
    hide IsKept, Suppresses, Flagged, Limit;
    var suppressed := new bool[|cands|](_ => false);
    numKept := 0;
    var i := 0;
    NothingFlagged(cfg, cands, suppressed[..]);
    while i < |cands| && numKept < cfg.maxBoxes
      invariant 0 <= i <= |cands| && numKept <= cfg.maxBoxes && numKept * BBOX_SIZE <= outSize
      invariant numKept == |Greedy(cfg, cands, i)| <= kept.Length
      invariant kept[..numKept] == Greedy(cfg, cands, i)
      invariant Flagged(cfg, cands, suppressed[..], i)
    {
      ghost var flags := suppressed[..];
      FlagDecides(cfg, cands, flags, i);
      if !suppressed[i] {
        if (numKept + 1) * BBOX_SIZE > outSize {
          GreedyPrefix(cfg, cands, i + 1, |cands|);
          break;
        }
        ghost var before := kept[..numKept];
        kept[numKept] := cands[i];
        numKept := numKept + 1;
        assert kept[..numKept] == before + [cands[i]];
        Suppress(cfg, cands, suppressed, i);
        FlagsAfter(cfg, cands, flags, suppressed[..], i);
      }
      i := i + 1;
    }
    GreedyPrefix(cfg, cands, i, |cands|);
    CapacityLimit(|Greedy(cfg, cands, |cands|)|, numKept, cfg.maxBoxes, outSize);
  }

  lemma NothingFlagged(cfg: NmsConfig, cands: seq<BBox>, flags: seq<bool>)
    requires |flags| == |cands| && forall j :: 0 <= j < |flags| ==> !flags[j]
    ensures Flagged(cfg, cands, flags, 0)
  {
  }

  // input is None for a missing tensor or one that is not a whole number of float boxes.
  method PostNms(input: Option<seq<BBox>>, out: array?<BBox>, outSize: nat, cfg: Option<NmsConfig>)
    returns (r: Result<nat>, ghost order: seq<nat>)
    requires out != null ==> outSize <= out.Length * BBOX_SIZE
    modifies out
    ensures input == None || out == null || cfg == None || cfg.value.maxBoxes == 0 || |input.value| > NMS_MAX_BOXES
            <==> r.Err?
    ensures r.Err? ==> r.error == EINVAL && (out != null ==> out[..] == old(out[..]))
    ensures r.Ok? ==>
      && IsOrder(input.value, cfg.value.scoreThreshold, |input.value|, order)
      && var all := Greedy(cfg.value, Candidates(input.value, order), |order|);
         && r.value == Limit(|all|, cfg.value.maxBoxes, outSize) <= |all|
         && r.value <= out.Length
         && out[..r.value] == all[..r.value]
         && Guaranteed(cfg.value, input.value, all, out[..r.value])
         // The limits are kept, and nothing else stops the answer short.
         && r.value <= cfg.value.maxBoxes && r.value * BBOX_SIZE <= outSize
         && (r.value == |all| || r.value == cfg.value.maxBoxes || (r.value + 1) * BBOX_SIZE > outSize)
    // The candidates are in descending order of score, and equal scores in input order.
    ensures r.Ok? ==> forall p, q :: 0 <= p < q < |order| ==>
              var a, b := input.value[order[p]], input.value[order[q]];
              a.score > b.score || (a.score == b.score && order[p] < order[q])
  {
    order := [];
    if input == None || out == null || cfg == None || cfg.value.maxBoxes == 0 {
      return Err(EINVAL), order;
    }
    var boxes := input.value;
    if |boxes| > NMS_MAX_BOXES {
      return Err(EINVAL), order;
    }
    var table := new nat[NMS_MAX_BOXES](_ => 0);
    var numCand := SortCandidates(boxes, cfg.value.scoreThreshold, table);
    order := table[..numCand];
    var cands := Candidates(boxes, table[..numCand]);
    var numKept := PickGreedy(cfg.value, cands, out, outSize);
    WrittenIsGuaranteed(cfg.value, boxes, order, numKept);
    LimitIsTight(|Greedy(cfg.value, cands, |order|)|, cfg.value.maxBoxes, outSize);
    hide Greedy, IsOrder, Guaranteed, Limit;
    r := Ok(numKept);
  }
}
