// The flash window cut into the regions of a store's layout.
module StoreDisk {
  import opened Errno
  import opened Bytes
  import opened FlashRam
  import opened StoreImage
  import opened StoreRuns

  function ShapeOf(g: Geometry, lay: Layout): Shape {
    Shape(lay.slotCount, g.page, lay.registrySize, lay.slotSize)
  }

  // m is the content of a window that the layout fits.
  ghost predicate Placed(g: Geometry, lay: Layout, m: seq<u8>): (placed: bool)
    ensures placed ==> Sound(g) && Shaped(lay) && LayoutOk(g, lay) && 2 <= lay.slotCount <= MAX_SLOTS
  {
    Sound(g) && Shaped(lay) && LayoutOk(g, lay) && |m| == g.size
  }

  lemma RegionFits(g: Geometry, lay: Layout, m: seq<u8>, i: nat)
    requires Placed(g, lay, m) && i < 2 + lay.slotCount
    ensures RegionOff(lay, i) as int + RegionSize(lay, i) as int <= |m| == g.size
    ensures RegionOff(lay, i) % g.sector == 0 && RegionSize(lay, i) % g.sector == 0
  {
    hide RegionOff, RegionSize, RoundUp;
    assert RegionOk(g, lay, i);
  }

  lemma RegionsApart(g: Geometry, lay: Layout, m: seq<u8>, i: nat, j: nat)
    requires Placed(g, lay, m) && i < 2 + lay.slotCount && j < 2 + lay.slotCount && i != j
    ensures Apart(lay, i, j)
  {
    hide RegionOk, RoundUp;
    if i < j {
      assert Apart(lay, i, j);
    } else {
      assert Apart(lay, j, i);
    }
  }

  lemma ShapeOfOk(g: Geometry, lay: Layout)
    requires Sound(g) && Shaped(lay) && LayoutOk(g, lay)
    ensures ShapeOk(ShapeOf(g, lay))
  {
    hide RegionsOk;
    PageWithin(ImgSize(lay.slotCount), g.page);
    hide RoundUp;
  }

  ghost function RegionAt(g: Geometry, lay: Layout, m: seq<u8>, i: nat): (r: seq<u8>)
    requires Placed(g, lay, m) && i < 2 + lay.slotCount
    ensures |r| == RegionSize(lay, i)
  {
    RegionFits(g, lay, m, i);
    m[RegionOff(lay, i)..RegionOff(lay, i) as int + RegionSize(lay, i) as int]
  }

  ghost function DiskOf(g: Geometry, lay: Layout, m: seq<u8>): (d: Disk)
    requires Placed(g, lay, m)
    ensures DiskOk(ShapeOf(g, lay), d)
  {
    hide Placed, LayoutOk, RegionAt;
    Disk([RegionAt(g, lay, m, 0), RegionAt(g, lay, m, 1)],
         seq(lay.slotCount, s requires 0 <= s < lay.slotCount => RegionAt(g, lay, m, 2 + s)))
  }

  function Replaced(d: Disk, i: nat, r: seq<u8>): Disk
    requires |d.copies| == 2 && i < 2 + |d.slots|
  {
    if i < 2 then d.(copies := d.copies[i := r]) else d.(slots := d.slots[i - 2 := r])
  }

  lemma OtherRegionSame(g: Geometry, lay: Layout, m: seq<u8>, n: seq<u8>, i: nat, j: nat)
    requires Placed(g, lay, m) && Placed(g, lay, n) && i < 2 + lay.slotCount && j < 2 + lay.slotCount && i != j
    requires RegionOff(lay, i) as int + RegionSize(lay, i) as int <= |m|
    requires SameOutside(m, n, RegionOff(lay, i), RegionSize(lay, i))
    ensures RegionAt(g, lay, n, j) == RegionAt(g, lay, m, j)
  {
    RegionsApart(g, lay, m, i, j);
    RegionFits(g, lay, m, j);
    hide LayoutOk, SameOutside, RegionOff, RegionSize;
    DisjointUntouched(m, n, RegionOff(lay, i), RegionSize(lay, i), RegionOff(lay, j), RegionSize(lay, j));
  }

  // A change inside one region changes that region of the disk and no other.
  lemma RegionChanged(g: Geometry, lay: Layout, m: seq<u8>, n: seq<u8>, i: nat)
    requires Placed(g, lay, m) && i < 2 + lay.slotCount && RegionOff(lay, i) as int + RegionSize(lay, i) as int <= |m|
    requires SameOutside(m, n, RegionOff(lay, i), RegionSize(lay, i))
    ensures Placed(g, lay, n)
    ensures DiskOf(g, lay, n) == Replaced(DiskOf(g, lay, m), i, RegionAt(g, lay, n, i))
  {
    hide LayoutOk, RegionAt, RegionOff, RegionSize;
    assert |n| == |m|;
    hide SameOutside;
    assert Placed(g, lay, n);
    hide Placed;
    forall j | 0 <= j < 2 + lay.slotCount && j != i
      ensures RegionAt(g, lay, n, j) == RegionAt(g, lay, m, j)
    {
      OtherRegionSame(g, lay, m, n, i, j);
    }
    DisksEqual(g, lay, m, n, i);
  }

  lemma DisksEqual(g: Geometry, lay: Layout, m: seq<u8>, n: seq<u8>, i: nat)
    requires Placed(g, lay, m) && Placed(g, lay, n) && i < 2 + lay.slotCount
    requires forall j :: 0 <= j < 2 + lay.slotCount && j != i ==> RegionAt(g, lay, n, j) == RegionAt(g, lay, m, j)
    ensures DiskOf(g, lay, n) == Replaced(DiskOf(g, lay, m), i, RegionAt(g, lay, n, i))
  {
    hide Placed, LayoutOk, RegionAt;
    var d, e := DiskOf(g, lay, m), DiskOf(g, lay, n);
    forall s | 0 <= s < lay.slotCount && 2 + s != i ensures e.slots[s] == d.slots[s] {
      assert RegionAt(g, lay, n, 2 + s) == RegionAt(g, lay, m, 2 + s);
    }
    if i < 2 {
      assert e.slots == d.slots;
      assert RegionAt(g, lay, n, 1 - i) == RegionAt(g, lay, m, 1 - i);
      assert e.copies == d.copies[i := RegionAt(g, lay, n, i)];
    } else {
      assert RegionAt(g, lay, n, 0) == RegionAt(g, lay, m, 0) && RegionAt(g, lay, n, 1) == RegionAt(g, lay, m, 1);
      assert e.slots == d.slots[i - 2 := RegionAt(g, lay, n, i)];
    }
  }

  // A write of the whole region.
  lemma RegionWritten(g: Geometry, lay: Layout, m: seq<u8>, i: nat, r: seq<u8>)
    requires Placed(g, lay, m) && i < 2 + lay.slotCount && |r| == RegionSize(lay, i)
    requires RegionOff(lay, i) as int + RegionSize(lay, i) as int <= |m|
    ensures Placed(g, lay, Splice(m, RegionOff(lay, i), r))
    ensures DiskOf(g, lay, Splice(m, RegionOff(lay, i), r)) == Replaced(DiskOf(g, lay, m), i, r)
  {
    hide LayoutOk, DiskOf, RegionOff, RegionSize;
    SpliceChangesOnly(m, RegionOff(lay, i), r);
    hide Splice, SameOutside;
    RegionChanged(g, lay, m, Splice(m, RegionOff(lay, i), r), i);
  }
}
