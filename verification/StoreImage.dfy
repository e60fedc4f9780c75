// The registry image of the model store: its layout in flash, how it is built and how a
// copy found in flash is validated.
module StoreImage {
  import opened Errno
  import opened Bytes
  import opened Crc32
  import opened FlashRam

  const MAGIC: u32 := 0x524E5953
  const VERSION: u16 := 2
  const MAX_SLOTS := 8
  const NONE: u8 := 0xFF
  const HDR_SIZE := 24
  const REC_SIZE := 88
  const CRC_AT := 20
  const IO_BUF := 256
  const SYNM_HDR := 64

  // ---- the layout ----

  datatype Layout = Layout(registryOff: seq<u32>, registrySize: u32, slotOff: seq<u32>, slotSize: u32, slotCount: u8)

  predicate Shaped(lay: Layout) {
    |lay.registryOff| == 2 && |lay.slotOff| == MAX_SLOTS
  }

  function ImgSize(slots: nat): nat {
    HDR_SIZE + slots * REC_SIZE
  }

  // Regions 0 and 1 are the registry copies; region 2 + s is model slot s.
  function RegionOff(lay: Layout, i: nat): u32
    requires Shaped(lay) && i < 2 + MAX_SLOTS
  {
    if i < 2 then lay.registryOff[i] else lay.slotOff[i - 2]
  }

  function RegionSize(lay: Layout, i: nat): u32 {
    if i < 2 then lay.registrySize else lay.slotSize
  }

  predicate RegionOk(g: Geometry, lay: Layout, i: nat)
    requires Sound(g) && Shaped(lay) && i < 2 + MAX_SLOTS
  {
    && RegionOff(lay, i) % g.sector == 0 && RegionSize(lay, i) % g.sector == 0
    && RegionOff(lay, i) as int + RegionSize(lay, i) as int <= g.size
  }

  predicate Apart(lay: Layout, i: nat, j: nat)
    requires Shaped(lay) && i < 2 + MAX_SLOTS && j < 2 + MAX_SLOTS
  {
    || RegionOff(lay, i) as int + RegionSize(lay, i) as int <= RegionOff(lay, j)
    || RegionOff(lay, j) as int + RegionSize(lay, j) as int <= RegionOff(lay, i)
  }

  ghost predicate RegionsOk(g: Geometry, lay: Layout, regions: nat)
    requires Sound(g) && Shaped(lay) && regions <= 2 + MAX_SLOTS
  {
    && (forall i :: 0 <= i < regions ==> RegionOk(g, lay, i))
    && (forall i, j :: 0 <= i < j < regions ==> Apart(lay, i, j))
  }

  // What a store can live in.
  ghost predicate LayoutOk(g: Geometry, lay: Layout)
    requires Sound(g) && Shaped(lay)
  {
    && 2 <= lay.slotCount <= MAX_SLOTS
    && lay.slotSize > SYNM_HDR
    && g.page <= IO_BUF && IO_BUF % g.page == 0
    && RoundUp(ImgSize(lay.slotCount), g.page) <= lay.registrySize
    && RegionsOk(g, lay, 2 + lay.slotCount)
  }

  function Wrap32(v: int): u32 {
    v % 0x1_0000_0000
  }

  // round_up on 32-bit values.
  function RoundUp32(v: u32, align: u32): u32
    requires align > 0
  {
    Wrap32(Wrap32(v + align - 1) / align * align)
  }

  // The overlap test on 32-bit sums, which may wrap.
  predicate SeemsToOverlap(lay: Layout, i: nat, j: nat)
    requires Shaped(lay) && i < 2 + MAX_SLOTS && j < 2 + MAX_SLOTS
  {
    RegionOff(lay, i) < Wrap32(RegionOff(lay, j) + RegionSize(lay, j)) &&
      RegionOff(lay, j) < Wrap32(RegionOff(lay, i) + RegionSize(lay, i))
  }

  predicate InWindow(g: Geometry, lay: Layout, i: nat)
    requires Sound(g) && Shaped(lay) && i < 2 + MAX_SLOTS
  {
    && RegionOff(lay, i) % g.sector == 0 && RegionSize(lay, i) % g.sector == 0
    && RegionOff(lay, i) <= g.size && RegionSize(lay, i) <= g.size - RegionOff(lay, i)
  }

  lemma InWindowIsRegionOk(g: Geometry, lay: Layout, i: nat)
    requires Sound(g) && Shaped(lay) && i < 2 + MAX_SLOTS
    ensures InWindow(g, lay, i) == RegionOk(g, lay, i)
  {
  }

  lemma NoWrapInWindow(g: Geometry, lay: Layout, i: nat, j: nat)
    requires Sound(g) && Shaped(lay) && i < 2 + MAX_SLOTS && j < 2 + MAX_SLOTS
    requires RegionOk(g, lay, i) && RegionOk(g, lay, j)
    ensures SeemsToOverlap(lay, i, j) == !Apart(lay, i, j)
  {
    Unwrapped(RegionOff(lay, i) + RegionSize(lay, i));
    Unwrapped(RegionOff(lay, j) + RegionSize(lay, j));
    hide Wrap32, RegionOff, RegionSize;
  }

  lemma NoWrapWhenShort(v: nat, align: u32)
    requires 0 < align <= IO_BUF && v <= 1000
    ensures RoundUp32(v, align) == RoundUp(v, align)
  {
    Unwrapped(v + align - 1);
    Unwrapped(RoundUp(v, align));
    hide Wrap32;
    assert RoundUp(v, align) == (v + align - 1) / align * align;
  }

  lemma Unwrapped(v: nat)
    requires v < 0x1_0000_0000
    ensures Wrap32(v) == v
  {
  }

  // Although the sums of the overlap test can wrap, the validation accepts exactly the
  // layouts whose regions really are in the window and apart: a region whose end wraps
  // is refused when its own turn comes.
  method LayoutValidate(g: Geometry, lay: Layout) returns (err: Option<Errno>)
    requires Sound(g) && Shaped(lay)
    ensures err == if LayoutOk(g, lay) then None else Some(EINVAL)
  {
    hide RegionsOk, RoundUp;
    if lay.slotCount < 2 || lay.slotCount > MAX_SLOTS {
      return Some(EINVAL);
    }
    if lay.registrySize == 0 || lay.slotSize == 0 {
      return Some(EINVAL);
    }
    if g.page <= IO_BUF {
      NoWrapWhenShort(ImgSize(lay.slotCount), g.page);
    }
    hide RoundUp32;
    if lay.registrySize < RoundUp32(ImgSize(lay.slotCount), g.page) {
      return Some(EINVAL);
    }
    if lay.slotSize <= SYNM_HDR {
      return Some(EINVAL);
    }
    if g.page > IO_BUF || IO_BUF % g.page != 0 {
      return Some(EINVAL);
    }
    err := RegionsValidate(g, lay, 2 + lay.slotCount);
  }

  method RegionsValidate(g: Geometry, lay: Layout, regions: nat) returns (err: Option<Errno>)
    requires Sound(g) && Shaped(lay) && regions <= 2 + MAX_SLOTS
    ensures err == if RegionsOk(g, lay, regions) then None else Some(EINVAL)
  {
    hide RegionOk, Apart, SeemsToOverlap, InWindow;
    for i := 0 to regions
      invariant forall k :: 0 <= k < i ==> RegionOk(g, lay, k)
      invariant forall k, j :: 0 <= k < i && k < j < regions ==> !SeemsToOverlap(lay, k, j)
    {
      InWindowIsRegionOk(g, lay, i);
      if !InWindow(g, lay, i) {
        return Some(EINVAL);
      }
      for j := i + 1 to regions
        invariant forall k :: i < k < j ==> !SeemsToOverlap(lay, i, k)
      {
        if SeemsToOverlap(lay, i, j) {
          OverlapIsReal(g, lay, regions, i, j);
          return Some(EINVAL);
        }
      }
    }
    forall i, j | 0 <= i < j < regions ensures Apart(lay, i, j) {
      NoWrapInWindow(g, lay, i, j);
    }
    return None;
  }

  lemma OverlapIsReal(g: Geometry, lay: Layout, regions: nat, i: nat, j: nat)
    requires Sound(g) && Shaped(lay) && i < j < regions <= 2 + MAX_SLOTS
    requires SeemsToOverlap(lay, i, j)
    ensures !RegionsOk(g, lay, regions)
  {
    hide SeemsToOverlap, RegionOk, Apart;
    if RegionsOk(g, lay, regions) {
      assert RegionOk(g, lay, i) && RegionOk(g, lay, j) && Apart(lay, i, j);
      NoWrapInWindow(g, lay, i, j);
    }
  }

  // ---- the image ----

  type Record = r: seq<u8> | |r| == REC_SIZE witness seq(REC_SIZE, _ => 0)

  function FlashOffset(r: Record): u32 { Rd32(r, 56) }
  function FlashSize(r: Record): u32 { Rd32(r, 60) }
  function RecordCrc(r: Record): u32 { Rd32(r, 68) }

  const NO_RECORD: Record := seq(REC_SIZE, _ => 0)

  // The persistent state: the roles and, for each slot of the layout, whether it holds a
  // complete image and which.
  datatype Registry = Registry(active: u8, prev: u8, staged: u8, occupied: seq<bool>, recs: seq<Record>)

  datatype Image = Image(gen: u32, wear: u32, reg: Registry)

  predicate RoleInRange(role: u8, slots: nat) {
    role < slots || role == NONE
  }

  predicate Fits(reg: Registry, slots: nat) {
    && |reg.occupied| == |reg.recs| == slots
    && RoleInRange(reg.active, slots) && RoleInRange(reg.prev, slots) && RoleInRange(reg.staged, slots)
  }

  function Recs(recs: seq<Record>): (r: seq<u8>)
    ensures |r| == |recs| * REC_SIZE
  {
    if recs == [] then [] else Recs(recs[..|recs| - 1]) + recs[|recs| - 1]
  }

  function Header(version: u16, slots: u8, prev: u8, gen: u32, wear: u32,
                  active: u8, staged: u8, mask: u8, crc: u32): (h: seq<u8>)
    ensures |h| == HDR_SIZE
  {
    Le32(MAGIC) + Le16(version) + [slots, prev] + Le32(gen) + Le32(wear) + [active, staged, mask, 0] + Le32(crc)
  }

  function MaskByte(occupied: seq<bool>): u8
    requires |occupied| <= MAX_SLOTS
  {
    PowerOfTwoGrows(|occupied|, 8);
    Eight();
    Mask(occupied)
  }

  function ImageWithCrc(img: Image, crc: u32): (r: seq<u8>)
    requires |img.reg.occupied| == |img.reg.recs| <= MAX_SLOTS
    ensures |r| == ImgSize(|img.reg.recs|)
  {
    Header(VERSION, |img.reg.recs|, img.reg.prev, img.gen, img.wear,
           img.reg.active, img.reg.staged, MaskByte(img.reg.occupied), crc) + Recs(img.reg.recs)
  }

  // The serialised registry, padded with 0xFF to whole pages; the checksum covers the
  // image with the checksum field zero.
  function Built(img: Image, page: nat): (r: seq<u8>)
    requires |img.reg.occupied| == |img.reg.recs| <= MAX_SLOTS && page > 0
    ensures |r| == RoundUp(ImgSize(|img.reg.recs|), page)
  {
    var size := ImgSize(|img.reg.recs|);
    ImageWithCrc(img, Crc(ImageWithCrc(img, 0))) + Erased(RoundUp(size, page) - size)
  }

  // ---- validating a copy ----

  function Record0(d: seq<u8>, s: nat): Record
    requires HDR_SIZE + (s + 1) * REC_SIZE <= |d|
  {
    d[HDR_SIZE + s * REC_SIZE..HDR_SIZE + (s + 1) * REC_SIZE]
  }

  function Unpacked(d: seq<u8>, slots: nat, n: nat): (r: seq<Record>)
    requires ImgSize(slots) <= |d|
    ensures |r| == n
  {
    seq(n, s requires 0 <= s < n => if s < slots then Record0(d, s) else NO_RECORD)
  }

  function CrcZeroed(d: seq<u8>, size: nat): (r: seq<u8>)
    requires HDR_SIZE <= size <= |d|
    ensures |r| == size
  {
    d[..CRC_AT] + [0, 0, 0, 0] + d[HDR_SIZE..size]
  }

  function SlotsIn(d: seq<u8>): nat
    requires HDR_SIZE <= |d|
  {
    if Rd16(d, 4) == 1 then 2 else d[6]
  }

  // The rollback pivot; version 1 had none.
  function PrevIn(d: seq<u8>): u8
    requires HDR_SIZE <= |d|
  {
    if Rd16(d, 4) == 1 then NONE else d[7]
  }

  predicate HeaderOk(d: seq<u8>, n: nat)
    requires HDR_SIZE <= |d|
  {
    && Rd32(d, 0) == MAGIC
    && (Rd16(d, 4) == VERSION || Rd16(d, 4) == 1)
    && 2 <= SlotsIn(d) <= MAX_SLOTS && SlotsIn(d) <= n
    && RoleInRange(d[16], SlotsIn(d)) && RoleInRange(d[17], SlotsIn(d)) && RoleInRange(PrevIn(d), SlotsIn(d))
    && d[18] < PowerOfTwo(SlotsIn(d))
  }

  // What copy_load accepts a registry region d as, in a store of n slots.
  function Load(d: seq<u8>, page: nat, n: nat): Option<Image>
    requires page <= |d| && ImgSize(n) <= |d|
  {
    if BlankAt(d, 0, page) || !HeaderOk(d, n) then Option.None
    else if Crc(CrcZeroed(d, ImgSize(SlotsIn(d)))) != Rd32(d, CRC_AT) then Option.None
    else Some(Image(Rd32(d, 8), Rd32(d, 12),
                    Registry(d[16], PrevIn(d), d[17], Bits(d[18], n), Unpacked(d, SlotsIn(d), n))))
  }

  lemma LoadedFits(d: seq<u8>, page: nat, n: nat)
    requires page <= |d| && ImgSize(n) <= |d| && Load(d, page, n).Some?
    ensures Fits(Load(d, page, n).value.reg, n)
  {
  }

  lemma {:induction false} RecsAt(recs: seq<Record>, s: nat)
    requires s < |recs|
    ensures Recs(recs)[s * REC_SIZE..(s + 1) * REC_SIZE] == recs[s]
  {
    var n := |recs| - 1;
    if s < n {
      RecsAt(recs[..n], s);
      assert recs[..n][s] == recs[s];
      assert Recs(recs)[s * REC_SIZE..(s + 1) * REC_SIZE] == Recs(recs[..n])[s * REC_SIZE..(s + 1) * REC_SIZE];
    }
  }

  lemma UnpackedRecs(recs: seq<Record>, header: seq<u8>, rest: seq<u8>)
    requires |header| == HDR_SIZE
    ensures Unpacked(header + Recs(recs) + rest, |recs|, |recs|) == recs
  {
    var d := header + Recs(recs) + rest;
    assert d[HDR_SIZE..ImgSize(|recs|)] == Recs(recs);
    forall s | 0 <= s < |recs| ensures Record0(d, s) == recs[s] {
      RecordReads(recs, d, s);
    }
    hide Recs, Record0;
    assert Unpacked(d, |recs|, |recs|) == recs;
  }

  lemma RecordReads(recs: seq<Record>, d: seq<u8>, s: nat)
    requires s < |recs| && ImgSize(|recs|) <= |d| && d[HDR_SIZE..ImgSize(|recs|)] == Recs(recs)
    ensures (s + 1) * REC_SIZE <= |recs| * REC_SIZE
    ensures Record0(d, s) == recs[s]
  {
    hide Recs;
    RecsAt(recs, s);
    RecordSlice(d, Recs(recs), ImgSize(|recs|), s * REC_SIZE, recs[s]);
  }

  lemma RecordSlice(d: seq<u8>, all: seq<u8>, size: nat, lo: nat, rec: Record)
    requires HDR_SIZE <= size <= |d| && d[HDR_SIZE..size] == all && lo + REC_SIZE <= |all|
    requires all[lo..lo + REC_SIZE] == rec
    ensures d[HDR_SIZE + lo..HDR_SIZE + lo + REC_SIZE] == rec
  {
    SliceOfSlice(d, HDR_SIZE, size, lo, lo + REC_SIZE);
  }

  lemma SliceOfSlice(d: seq<u8>, from: nat, to: nat, lo: nat, hi: nat)
    requires from <= to <= |d| && lo <= hi <= to - from
    ensures d[from..to][lo..hi] == d[from + lo..from + hi]
  {
    forall i | 0 <= i < hi - lo ensures d[from..to][lo..hi][i] == d[from + lo..from + hi][i] {
      assert d[from..to][lo..hi][i] == d[from..to][lo + i];
    }
  }

  lemma HeaderReads(version: u16, slots: u8, prev: u8, gen: u32, wear: u32,
                    active: u8, staged: u8, mask: u8, crc: u32, rest: seq<u8>)
    ensures var d := Header(version, slots, prev, gen, wear, active, staged, mask, crc) + rest;
            && Rd32(d, 0) == MAGIC && Rd16(d, 4) == version && d[6] == slots && d[7] == prev
            && Rd32(d, 8) == gen && Rd32(d, 12) == wear
            && d[16] == active && d[17] == staged && d[18] == mask && Rd32(d, CRC_AT) == crc
  {
    var d := Header(version, slots, prev, gen, wear, active, staged, mask, crc) + rest;
    hide Rd32, Rd16, Le32, Le16;
    assert d[0..4] == Le32(MAGIC) && d[8..12] == Le32(gen) && d[12..16] == Le32(wear) && d[20..24] == Le32(crc);
    Rd32OfLe32(d, 0, MAGIC);
    Rd32OfLe32(d, 8, gen);
    Rd32OfLe32(d, 12, wear);
    Rd32OfLe32(d, 20, crc);
    assert d[4] == Le16(version)[0] && d[5] == Le16(version)[1];
    Rd16OfLe16(d, 4, version);
  }

  lemma ZeroedAgain(img: Image, crc: u32, rest: seq<u8>)
    requires |img.reg.occupied| == |img.reg.recs| <= MAX_SLOTS
    ensures CrcZeroed(ImageWithCrc(img, crc) + rest, ImgSize(|img.reg.recs|)) == ImageWithCrc(img, 0)
  {
    var recs := Recs(img.reg.recs);
    hide Recs, MaskByte;
    assert Le32(0) == [0, 0, 0, 0];
    hide Le32, Le16;
    var front := Le32(MAGIC) + Le16(VERSION) + [|img.reg.recs|, img.reg.prev] + Le32(img.gen) + Le32(img.wear) +
                 [img.reg.active, img.reg.staged, MaskByte(img.reg.occupied), 0];
    assert |front| == CRC_AT;
    assert ImageWithCrc(img, crc) == front + Le32(crc) + recs && ImageWithCrc(img, 0) == front + Le32(0) + recs;
    hide ImageWithCrc;
    assert CrcZeroed(front + Le32(crc) + recs + rest, CRC_AT + 4 + |recs|) == front + [0, 0, 0, 0] + recs;
  }

  // Whatever follows it in the region, a copy that was written whole loads as what was
  // written.
  lemma BuiltLoads(img: Image, page: nat, tail: seq<u8>)
    requires 2 <= |img.reg.recs| <= MAX_SLOTS && Fits(img.reg, |img.reg.recs|) && page > 0
    requires page <= RoundUp(ImgSize(|img.reg.recs|), page)
    ensures Load(Built(img, page) + tail, page, |img.reg.recs|) == Some(img)
  {
    var reg := img.reg;
    var n := |reg.recs|;
    var crc := Crc(ImageWithCrc(img, 0));
    var pad := Erased(RoundUp(ImgSize(n), page) - ImgSize(n)) + tail;
    var d := Built(img, page) + tail;
    assert d == ImageWithCrc(img, crc) + pad;
    hide Built, RoundUp, Erased;
    ImageLoads(img, crc, pad, page);
  }

  lemma ImageLoads(img: Image, crc: u32, pad: seq<u8>, page: nat)
    requires 2 <= |img.reg.recs| <= MAX_SLOTS && Fits(img.reg, |img.reg.recs|)
    requires crc == Crc(ImageWithCrc(img, 0))
    requires 0 < page <= |ImageWithCrc(img, crc) + pad|
    ensures Load(ImageWithCrc(img, crc) + pad, page, |img.reg.recs|) == Some(img)
  {
    var reg := img.reg;
    var d := ImageWithCrc(img, crc) + pad;
    hide Recs, ImageWithCrc, Mask, MaskByte, Bits, BlankAt, CrcZeroed, Crc, Rd32, Rd16, Unpacked, PowerOfTwo, ImgSize;
    ZeroedAgain(img, crc, pad);
    ImageFields(img, crc, pad);
    BitsOfMask(reg.occupied);
    NotBlank(d, page);
  }

  // Where the fields of the image are read from.
  lemma ImageFields(img: Image, crc: u32, pad: seq<u8>)
    requires |img.reg.occupied| == |img.reg.recs| <= MAX_SLOTS
    ensures var d, reg := ImageWithCrc(img, crc) + pad, img.reg;
            && ImgSize(|reg.recs|) <= |d| && HDR_SIZE <= ImgSize(|reg.recs|)
            && Rd32(d, 0) == MAGIC && Rd16(d, 4) == VERSION && d[6] == |reg.recs| && d[7] == reg.prev
            && Rd32(d, 8) == img.gen && Rd32(d, 12) == img.wear
            && d[16] == reg.active && d[17] == reg.staged && d[18] == Mask(reg.occupied) && Rd32(d, CRC_AT) == crc
            && Mask(reg.occupied) < PowerOfTwo(|reg.occupied|)
            && Unpacked(d, |reg.recs|, |reg.recs|) == reg.recs
  {
    var reg := img.reg;
    var n := |reg.recs|;
    var d := ImageWithCrc(img, crc) + pad;
    var mask, recs := MaskByte(reg.occupied), Recs(reg.recs);
    var h := Header(VERSION, n, reg.prev, img.gen, img.wear, reg.active, reg.staged, mask, crc);
    assert d == h + (recs + pad) && d == h + recs + pad;
    hide Header, Recs, ImageWithCrc, Mask, Rd32, Rd16, Unpacked, PowerOfTwo;
    HeaderReads(VERSION, n, reg.prev, img.gen, img.wear, reg.active, reg.staged, mask, crc, recs + pad);
    UnpackedRecs(reg.recs, h, pad);
  }

  // A copy with one byte of its image damaged does not load, wherever the byte is but for
  // the two that say how much the checksum covers: the low byte of the version, whose
  // old value implies two slots, and the slot count.
  lemma DamageIsRejected(img: Image, page: nat, tail: seq<u8>, k: nat, v: u8)
    requires 2 <= |img.reg.recs| <= MAX_SLOTS && Fits(img.reg, |img.reg.recs|) && page > 0
    requires page <= RoundUp(ImgSize(|img.reg.recs|), page)
    requires k < ImgSize(|img.reg.recs|) && k != 4 && k != 6
    ensures var d := Built(img, page) + tail; v != d[k] ==> Load(d[k := v], page, |img.reg.recs|) == Option.None
  {
    var n := |img.reg.recs|;
    var crc := Crc(ImageWithCrc(img, 0));
    var pad := Erased(RoundUp(ImgSize(n), page) - ImgSize(n)) + tail;
    var d := Built(img, page) + tail;
    assert d == ImageWithCrc(img, crc) + pad;
    hide Built, RoundUp, Erased, ImageWithCrc;
    ImageFields(img, crc, pad);
    ZeroedAgain(img, crc, pad);
    if v != d[k] {
      DamagedCopy(d, page, n, k, v);
    }
  }

  lemma DamagedCopy(d: seq<u8>, page: nat, n: nat, k: nat, v: u8)
    requires page <= |d| && 2 <= n <= MAX_SLOTS && k < ImgSize(n) <= |d| && k != 4 && k != 6 && v != d[k]
    requires Rd32(d, 0) == MAGIC && Rd16(d, 4) == VERSION && d[6] == n
    requires Rd32(d, CRC_AT) == Crc(CrcZeroed(d, ImgSize(n)))
    ensures Load(d[k := v], page, n) == Option.None
  {
    var e := d[k := v];
    hide BlankAt, Bits, PowerOfTwo, Unpacked, Crc, CrcZeroed;
    if k < 4 {
      WordDiffers(d, 0, k, v);
    } else if k > 6 {
      assert Rd16(e, 4) == VERSION && SlotsIn(e) == n;
      if CRC_AT <= k < HDR_SIZE {
        WordDiffers(d, CRC_AT, k, v);
        ZeroedSame(d, ImgSize(n), k, v);
      } else {
        ZeroedDiffers(d, ImgSize(n), k, v);
      }
    }
  }

  lemma WordDiffers(d: seq<u8>, at: nat, k: nat, v: u8)
    requires at <= k < at + 4 <= |d| && v != d[k]
    ensures Rd32(d[k := v], at) != Rd32(d, at)
  {
  }

  lemma ZeroedSame(d: seq<u8>, size: nat, k: nat, v: u8)
    requires CRC_AT <= k < HDR_SIZE <= size <= |d|
    ensures CrcZeroed(d[k := v], size) == CrcZeroed(d, size)
  {
  }

  lemma ZeroedDiffers(d: seq<u8>, size: nat, k: nat, v: u8)
    requires HDR_SIZE <= size <= |d| && k < size && !(CRC_AT <= k < HDR_SIZE) && v != d[k]
    ensures Crc(CrcZeroed(d[k := v], size)) != Crc(CrcZeroed(d, size))
    ensures Rd32(d[k := v], CRC_AT) == Rd32(d, CRC_AT)
  {
    hide Crc;
    var z := CrcZeroed(d, size);
    assert z == z[..k] + [d[k]] + z[k + 1..];
    assert CrcZeroed(d[k := v], size) == z[..k] + [v] + z[k + 1..];
    OneByteChangeIsSeen(z[..k], d[k], v, z[k + 1..]);
  }

  lemma NotBlank(d: seq<u8>, page: nat)
    requires 4 <= |d| && 0 < page <= |d| && Rd32(d, 0) == MAGIC
    ensures !BlankAt(d, 0, page)
  {
    assert d[0] != BLANK;
  }
}
