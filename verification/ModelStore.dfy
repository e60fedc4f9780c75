// The flash-backed model store as it runs: the static state, the registry scan, the
// ping-pong commit and the calls that save the roles, change them, commit and restore
// them when the commit fails.
//
// Every call is proved to be a step of the machine of module StoreRuns.
module ModelStore {
  import opened Errno
  import opened Bytes
  import opened Crc32
  import opened FlashRam
  import opened StoreImage
  import opened StoreRoles
  import opened StoreRuns
  import opened StoreDisk
  import opened SlotImage

  // The copy of the registry that a commit call leaves behind, with everything but the
  // registry in RAM that it changes.
  ghost predicate Copied(sh: Shape, d: Disk, ram: Ram, copy: nat, gen: u32, after: State, err: Option<Errno>) {
    && ShapeOk(sh) && DiskOk(sh, d) && RamOk(sh, ram) && copy < 2 && StateOk(sh, after) && after.On?
    && var img := Image(gen, Wrap32(ram.wear[copy] as int + 1), ram.reg);
       if err.None? then
         after == On(d.(copies := d.copies[copy := Region(sh, img)]),
                     Ram(ram.reg, gen, ram.wear[copy := img.wear], ram.valid[copy := true], copy))
       else
         after == On(d.(copies := d.copies[copy := after.disk.copies[copy]]),
                     ram.(wear := ram.wear[copy := after.ram.wear[copy]], valid := ram.valid[copy := false]))
  }

  lemma CopiedIsAttempted(sh: Shape, d: Disk, ram: Ram, after: State, err: Option<Errno>)
    requires RamOk(sh, ram) && Copied(sh, d, ram, Target(ram), Wrap32(ram.gen + 1), after, err)
    ensures Attempted(sh, d, ram, ram.reg, after, err)
  {
    hide Region, Fits;
  }

  // A failed commit whose caller puts the registry back.
  lemma RestoredIsAttempted(sh: Shape, d: Disk, ram: Ram, reg: Registry, tried: State, after: State, err: Option<Errno>)
    requires ShapeOk(sh) && DiskOk(sh, d) && RamOk(sh, ram) && Fits(reg, sh.slots)
    requires Attempted(sh, d, ram.(reg := reg), reg, tried, err)
    requires tried.On? && after == if err.None? then tried else On(tried.disk, tried.ram.(reg := ram.reg))
    ensures Attempted(sh, d, ram, reg, after, err)
  {
    hide Region, Fits;
  }

  class ModelStore {
    const port: FlashPort
    const lay: Layout
    var ready: bool
    var generation: u32
    var activeSlot: u8
    var prevActive: u8
    var stagedSlot: u8
    var occupied: seq<bool>
    var rec: seq<Record>
    var wear: seq<u32>
    var copyValid: seq<bool>
    var newestCopy: nat

    ghost function Reg(): Registry
      reads this
    {
      Registry(activeSlot, prevActive, stagedSlot, occupied, rec)
    }

    ghost function RamState(): Ram
      reads this
    {
      Ram(Reg(), generation, wear, copyValid, newestCopy)
    }

    ghost function Sh(): Shape {
      ShapeOf(port.g, lay)
    }

    ghost predicate Valid()
      reads this
    {
      port.Valid() && Shaped(lay) && (ready ==> LayoutOk(port.g, lay) && RamOk(Sh(), RamState()))
    }

    // The flash and the RAM state together, as the machine sees them.
    ghost function Now(): (st: State)
      requires Valid() && ready
      reads this, port.mem
      ensures StateOk(Sh(), st) && st.On?
    {
      ShapeOfOk(port.g, lay);
      hide LayoutOk, RamOk;
      On(DiskOf(port.g, lay, port.mem[..]), RamState())
    }

    lemma NowIs()
      requires Valid() && ready
      ensures Now().ram.reg == Reg()
    {
    }

    constructor (port: FlashPort, lay: Layout)
      requires port.Valid() && Shaped(lay)
      ensures Valid() && !ready && this.port == port && this.lay == lay
    {
      this.port := port;
      this.lay := lay;
      ready := false;
      generation := 0;
      activeSlot, prevActive, stagedSlot := NONE, NONE, NONE;
      occupied, rec, wear, copyValid := [], [], [0, 0], [false, false];
      newestCopy := 0;
    }

    // ---- images ----

    // Serialise the current state.
    method ImageBuild(gen: u32, wearCount: u32) returns (img: seq<u8>)
      requires Valid() && ready
      ensures img == Built(Image(gen, wearCount, Reg()), port.g.page)
    {
      hide RoundUp, LayoutOk, ImageWithCrc, Crc;
      var n := lay.slotCount;
      var state := Image(gen, wearCount, Reg());
      assert n == |rec| <= MAX_SLOTS by { LayoutCounts(port.g, lay); }
      img := Header(VERSION, n, prevActive, gen, wearCount, activeSlot, stagedSlot, MaskByte(occupied), 0);
      hide Header, MaskByte;
      ghost var header := img;
      for s := 0 to n
        invariant img == header + Recs(rec[..s])
      {
        img := img + rec[s];
        RecsExtend(rec, s);
      }
      assert rec[..n] == rec;
      ZeroCrcImage(state, header);
      var crc := Crc(img);
      img := img[..CRC_AT] + Le32(crc) + img[HDR_SIZE..];
      CrcPutIn(state, crc);
      var size := ImgSize(n);
      img := img + Erased(RoundUp(size, port.g.page) - size);
    }

    // Read one registry copy and validate it.
    method CopyLoad(copy: nat) returns (img: Option<Image>)
      requires port.Valid() && Shaped(lay) && LayoutOk(port.g, lay) && copy < 2
      ensures ShapeOk(Sh()) && Placed(port.g, lay, port.mem[..])
      ensures img == Found(Sh(), DiskOf(port.g, lay, port.mem[..]), copy)
    {
      ShapeOfOk(port.g, lay);
      ghost var m := port.mem[..];
      assert Placed(port.g, lay, m);
      RegionFits(port.g, lay, m, copy);
      LayoutCounts(port.g, lay);
      ghost var d := RegionAt(port.g, lay, m, copy);
      var off, page, n := lay.registryOff[copy], port.g.page, lay.slotCount;
      assert d == m[off..off as int + lay.registrySize as int];
      ghost var region := DiskOf(port.g, lay, m).copies[copy];
      assert region == d;
      assert page <= |d| && ImgSize(n) <= |d|;
      hide LayoutOk, Placed, RegionAt, DiskOf, ShapeOk, DiskOk, Rd32, Rd16, Unpacked, Bits, PowerOfTwo, CrcZeroed, Crc,
           BlankAt;
      img := LoadRegion(d, off, page, n);
    }

    method LoadRegion(ghost d: seq<u8>, off: nat, page: nat, n: nat) returns (img: Option<Image>)
      requires port.Valid() && n <= MAX_SLOTS && 0 < page <= |d| && ImgSize(n) <= |d|
      requires off + |d| <= |port.mem[..]| && port.mem[..][off..off + |d|] == d
      ensures img == Load(d, page, n)
    {
      hide Rd32, Rd16, Unpacked, Bits, PowerOfTwo, CrcZeroed, Crc;
      ghost var m := port.mem[..];
      var blank := port.IsBlank(off, page);
      BlankInRegion(m, off, d, page);
      if blank.Err? || blank.value {
        return Option.None;
      }
      var read := port.Read(off, HDR_SIZE);
      if read.Err? {
        return Option.None;
      }
      var hdr := read.value;
      assert hdr == d[..HDR_SIZE];
      HeaderOfPrefix(d, hdr, n);
      hide BlankAt;
      if !HeaderOk(hdr, n) {
        return Option.None;
      }
      var slots := SlotsIn(hdr);
      var size := ImgSize(slots);
      read := port.Read(off, size);
      if read.Err? {
        return Option.None;
      }
      var buf := read.value;
      assert buf == d[..size];
      ImageOfPrefix(d, buf, slots, n);
      hide HeaderOk;
      if Crc(CrcZeroed(buf, size)) != Rd32(hdr, CRC_AT) {
        return Option.None;
      }
      return Some(Image(Rd32(hdr, 8), Rd32(hdr, 12),
                        Registry(hdr[16], PrevIn(hdr), hdr[17], Bits(hdr[18], n), Unpacked(buf, slots, n))));
    }

    // ---- commit ----

    // Erase the copy's region, program the image and compare what landed. erased says
    // whether the erase happened.
    method FlashCopy(off: nat, size: nat, img: seq<u8>, verify: nat) returns (err: Option<Errno>, erased: bool)
      requires port.Valid() && verify <= |img| <= size && off + size <= port.g.size && verify > 0
      requires Aligned(off, size, port.g.sector) && Aligned(off, |img|, port.g.page)
      modifies port, port.mem
      ensures SameOutside(old(port.mem[..]), port.mem[..], off, size)
      ensures err.None? ==> erased && port.mem[..] == Splice(old(port.mem[..]), off, img + Erased(size - |img|))
      ensures old(port.failAfterPages) == 0 ==> err.None? && port.failAfterPages == 0
    {
      hide WasErased, Wrote, Aligned, Sound;
      ghost var c0 := port.Now();
      err := port.Erase(off, size);
      ghost var c1 := port.Now();
      EraseFacts(port.g, c0, c1, off, size, err);
      if err.Some? {
        return err, false;
      }
      err := port.Write(off, img);
      ghost var c2 := port.Now();
      WriteFacts(port.g, c1, c2, off, img, err);
      WroteInside(c0.mem, c1.mem, c2.mem, off, size, |img|);
      ErasedIsBlank(c0.mem, off, size, |img|);
      if err.Some? {
        return err, true;
      }
      err := ReadBack(off, img, verify);
      ErasedThenWritten(c0.mem, off, size, img);
      hide Splice, SameOutside, BlankAt;
      LandedReads(c0.mem, c2.mem, off, img + Erased(size - |img|), img, verify);
      return err, true;
    }

    // Compare flash with the image in blocks of 64 bytes.
    method ReadBack(off: nat, img: seq<u8>, verify: nat) returns (err: Option<Errno>)
      requires port.Valid() && verify <= |img| && off + verify <= port.g.size
      ensures err == if port.mem[..][off..off + verify] == img[..verify] then None else Some(EIO)
    {
      ghost var m := port.mem[..];
      var pos := 0;
      while pos < verify
        invariant pos <= verify
        invariant m[off..off + pos] == img[..pos]
      {
        var n := if verify - pos < 64 then verify - pos else 64;
        var read := port.Read(off + pos, n);
        match read {
          case Err(e) =>
            return Some(e);
          case Ok(page) =>
            assert page == m[off + pos..off + pos + n];
            BlockCompares(m, img, off, pos, n, verify);
            if page != img[pos..pos + n] {
              return Some(EIO);
            }
        }
        pos := pos + n;
      }
      return None;
    }

    // FlashCopy into a copy's region.
    method WriteCopy(copy: nat, img: seq<u8>) returns (err: Option<Errno>, erased: bool)
      requires Valid() && ready && copy < 2 && |img| == RoundUp(ImgSize(lay.slotCount), port.g.page)
      modifies port, port.mem
      ensures |img| <= lay.registrySize && Placed(port.g, lay, port.mem[..])
      ensures Replaces(old(Now().disk), DiskOf(port.g, lay, port.mem[..]), copy)
      ensures err.None? ==> erased
      ensures err.None? ==>
        DiskOf(port.g, lay, port.mem[..]).copies[copy] == img + Erased(lay.registrySize as int - |img|)
      ensures old(port.failAfterPages) == 0 ==> err.None? && port.failAfterPages == 0
    {
      ghost var m := port.mem[..];
      RegionFits(port.g, lay, m, copy);
      LayoutCounts(port.g, lay);
      PagesAligned(port.g, lay, copy);
      assert |img| <= lay.registrySize;
      hide LayoutOk, RamOk, RoundUp, SameOutside, DiskOf, Splice;
      var off := lay.registryOff[copy];
      assert RegionOff(lay, copy) == off && RegionSize(lay, copy) == lay.registrySize;
      err, erased := FlashCopy(off, lay.registrySize, img, ImgSize(lay.slotCount));
      RegionChanged(port.g, lay, m, port.mem[..], copy);
      if err.None? {
        RegionWritten(port.g, lay, m, copy, img + Erased(lay.registrySize as int - |img|));
      }
    }

    method WriteImage(copy: nat, gen: u32, wearCount: u32) returns (err: Option<Errno>, erased: bool)
      requires Valid() && ready && copy < 2
      modifies port, port.mem
      ensures Placed(port.g, lay, port.mem[..])
      ensures Replaces(old(Now().disk), DiskOf(port.g, lay, port.mem[..]), copy)
      ensures err.None? ==> erased
      ensures err.None? ==> Holds(Sh(), DiskOf(port.g, lay, port.mem[..]), copy, Image(gen, wearCount, Reg()))
      ensures old(port.failAfterPages) == 0 ==> err.None? && port.failAfterPages == 0
    {
      LayoutCounts(port.g, lay);
      hide LayoutOk, DiskOf, Replaces, RoundUp;
      var img := ImageBuild(gen, wearCount);
      err, erased := WriteCopy(copy, img);
    }

    method MarkInvalid(copy: nat, count: u32)
      requires |wear| == |copyValid| == 2 && copy < 2
      modifies this`wear, this`copyValid
      ensures RamState() == FailedRam(old(RamState()), copy, count)
    {
      wear := wear[copy := count];
      copyValid := copyValid[copy := false];
    }

    method MarkNewest(copy: nat, gen: u32, count: u32)
      requires |wear| == |copyValid| == 2 && copy < 2
      modifies this`wear, this`copyValid, this`newestCopy, this`generation
      ensures RamState() == DoneRam(old(RamState()), copy, gen, count)
    {
      wear := wear[copy := count];
      copyValid := copyValid[copy := true];
      newestCopy := copy;
      generation := gen;
    }

    // Write the current state as generation gen into the given copy.
    method CopyCommit(copy: nat, gen: u32) returns (err: Option<Errno>)
      requires Valid() && ready && copy < 2
      modifies this`wear, this`copyValid, this`newestCopy, this`generation, port, port.mem
      ensures Valid()
      ensures Copied(Sh(), old(Now().disk), old(RamState()), copy, gen, Now(), err)
      ensures old(port.failAfterPages) == 0 ==> err.None? && port.failAfterPages == 0
    {
      ShapeOfOk(port.g, lay);
      ghost var d, ram := Now().disk, RamState();
      var w := Wrap32(wear[copy] as int + 1);
      assert NextWear(ram, copy, w);
      var erased;
      var was := wear[copy];
      hide NextWear, LayoutOk, ShapeOk, DiskOf, Fits, Holds, Copied, Replaces, DiskOk, Wrap32, RamOk, RamState, Reg,
           DoneRam, FailedRam;
      err, erased := WriteImage(copy, gen, w);
      ghost var e := DiskOf(port.g, lay, port.mem[..]);
      // the erase happened: count it
      var count := if erased then w else was;
      if err.Some? {
        MarkInvalid(copy, count);
        FailedCopy(Sh(), d, e, ram, copy, gen, count, err);
        return err;
      }
      MarkNewest(copy, gen, count);
      DoneCopy(Sh(), d, e, ram, copy, gen, w);
    }

    // Persist the current state into the older copy.
    method Persist() returns (err: Option<Errno>)
      requires Valid() && ready
      modifies this`wear, this`copyValid, this`newestCopy, this`generation, port, port.mem
      ensures Valid()
      ensures Persisted(Sh(), old(Now().disk), old(RamState()), Now(), err)
      ensures old(port.failAfterPages) == 0 ==> err.None? && port.failAfterPages == 0
    {
      ghost var d, ram := Now().disk, RamState();
      var target := if copyValid[newestCopy] then 1 - newestCopy else 0;
      var gen := Wrap32(generation + 1);
      assert target == Target(ram) && gen == Wrap32(ram.gen + 1);
      hide Copied, Attempted, DiskOf, LayoutOk, Wrap32, Fits, RamState, Target;
      err := CopyCommit(target, gen);
      CopiedIsAttempted(Sh(), d, ram, Now(), err);
    }

    // Persist, and put the saved registry back when that fails.
    method PersistOrRestore(active: u8, prev: u8, staged: u8, occ: seq<bool>, recs: seq<Record>)
      returns (err: Option<Errno>)
      requires Valid() && ready && Fits(Registry(active, prev, staged, occ, recs), lay.slotCount)
      modifies this, port, port.mem
      ensures Valid() && ready
      ensures Restored(Sh(), old(Now().disk), old(RamState()), Registry(active, prev, staged, occ, recs), Now(), err)
      ensures old(port.failAfterPages) == 0 ==> err.None? && port.failAfterPages == 0
    {
      ghost var d, ram, was := Now().disk, RamState(), Registry(active, prev, staged, occ, recs);
      err := Persist();
      ghost var tried := Now();
      if err.Some? {
        PutBack(active, prev, staged, occ, recs);
      }
      hide Attempted, DiskOf, LayoutOk, Fits, RamState, Reg;
      RestoredAfter(Sh(), d, ram, was, tried, Now(), err);
    }

    method PutBack(active: u8, prev: u8, staged: u8, occ: seq<bool>, recs: seq<Record>)
      modifies this`activeSlot, this`prevActive, this`stagedSlot, this`occupied, this`rec
      ensures RamState() == old(RamState()).(reg := Registry(active, prev, staged, occ, recs))
    {
      activeSlot, prevActive, stagedSlot, occupied, rec := active, prev, staged, occ, recs;
    }

    // ---- the registry scan ----

    // Adopt the newest valid copy.
    method Init() returns (err: Option<Errno>)
      requires Valid()
      modifies this
      ensures Valid()
      ensures old(ready) ==> err == Some(EALREADY) && unchanged(this)
      ensures !old(ready) && !LayoutOk(port.g, lay) ==> err == Some(EINVAL) && unchanged(this)
      ensures !old(ready) && LayoutOk(port.g, lay) ==>
        err.None? && ready && Now().disk == DiskOf(port.g, lay, port.mem[..]) &&
        RamState() == StoreRuns.Init(Sh(), Now().disk)
    {
      if ready {
        return Some(EALREADY);
      }
      err := LayoutValidate(port.g, lay);
      if err.Some? {
        return err;
      }
      var a := CopyLoad(0);
      var b := CopyLoad(1);
      ghost var d := DiskOf(port.g, lay, port.mem[..]);
      ScanFits(Sh(), d);
      var newest := Newest(a, b);
      Adopt(a, b, newest);
      ready := true;
    }

    // Unpack the adopted copy into the empty state.
    method Adopt(a: Option<Image>, b: Option<Image>, newest: Option<nat>)
      requires newest == Newest(a, b)
      modifies this
      ensures RamState() == Scan(lay.slotCount, a, b) && ready == old(ready)
    {
      StartEmpty();
      if newest.Some? {
        hide Reg;
        TakeOver(if newest.value == 0 then a.value else b.value, a, b, newest.value);
      }
    }

    method StartEmpty()
      modifies this`activeSlot, this`prevActive, this`stagedSlot, this`occupied, this`rec
      modifies this`generation, this`newestCopy, this`wear, this`copyValid
      ensures RamState() == Ram(Empty(lay.slotCount), 0, [0, 0], [false, false], 0)
    {
      activeSlot, prevActive, stagedSlot := NONE, NONE, NONE;
      occupied, rec := seq(lay.slotCount, _ => false), seq(lay.slotCount, _ => NO_RECORD);
      generation, newestCopy := 0, 0;
      wear, copyValid := [0, 0], [false, false];
    }

    method TakeOver(adopted: Image, a: Option<Image>, b: Option<Image>, newest: nat)
      modifies this`activeSlot, this`prevActive, this`stagedSlot, this`occupied, this`rec
      modifies this`generation, this`newestCopy, this`wear, this`copyValid
      ensures RamState() == Ram(adopted.reg, adopted.gen, [WearOf(a), WearOf(b)], [a.Some?, b.Some?], newest)
    {
      wear := [WearOf(a), WearOf(b)];
      copyValid := [a.Some?, b.Some?];
      newestCopy := newest;
      generation := adopted.gen;
      activeSlot, prevActive, stagedSlot := adopted.reg.active, adopted.reg.prev, adopted.reg.staged;
      occupied, rec := adopted.reg.occupied, adopted.reg.recs;
    }

    method Deinit()
      requires Valid()
      modifies this`ready
      ensures Valid() && !ready
    {
      ready := false;
    }

    // ---- the calls ----

    // First free slot; else the first that is neither active nor the pivot; else the
    // first non-active.
    method StagingSlot() returns (slot: Result<u8>)
      requires Valid()
      ensures !ready ==> slot == Err(EINVAL)
      ensures ready && slot.Ok? ==> StagingChoice(Reg(), slot.value)
      ensures ready && slot.Err? ==> slot.error == ENOSPC && NoneWhere(NotActive(Reg()), lay.slotCount)
    {
      if !ready {
        return Err(EINVAL);
      }
      LayoutCounts(port.g, lay);
      hide LayoutOk;
      var n := lay.slotCount;
      for s := 0 to n
        invariant NoneWhere(Free(Reg()), s)
      {
        if !occupied[s] {
          return Ok(s);
        }
      }
      for s := 0 to n
        invariant NoneWhere(RoleFree(Reg()), s)
      {
        if s != activeSlot && s != prevActive {
          return Ok(s);
        }
      }
      for s := 0 to n
        invariant NoneWhere(NotActive(Reg()), s)
      {
        if s != activeSlot {
          return Ok(s);
        }
      }
      return Err(ENOSPC);
    }

    method BeginStaging(slot: u8, dropped: Option<Errno>) returns (err: Option<Errno>)
      requires Valid()
      modifies this, port, port.mem
      ensures Valid() && ready == old(ready)
      ensures !old(ready) ==> err == Some(EINVAL) && unchanged(this) && unchanged(port) && unchanged(port.mem)
      ensures old(ready) ==> Outcome(Sh(), old(Now()), OnBeginStaging(old(Reg()), slot, dropped), Now(), err)
      ensures old(ready) && (err.Some? || !old(occupied)[slot]) ==> Reg() == old(Reg())
      ensures err.None? ==> slot < |old(occupied)| && (old(occupied)[slot] ==> Means(Evict(slot), old(Reg()), Reg()))
      ensures old(ready) && old(port.failAfterPages) == 0 && OnBeginStaging(old(Reg()), slot, dropped).Do? ==> err.None?
      ensures old(port.failAfterPages) == 0 ==> port.failAfterPages == 0
    {
      if !ready || slot >= lay.slotCount {
        return Some(EINVAL);
      }
      if slot == activeSlot {
        return Some(EBUSY);
      }
      if !occupied[slot] {
        return None;
      }
      // the resident model may refuse to go while it has a suspended job
      if dropped.Some? {
        return dropped;
      }
      ghost var was, d, ram := Reg(), Now().disk, RamState();
      var active, prev, staged, occ, recs := activeSlot, prevActive, stagedSlot, occupied, rec;
      occupied := occupied[slot := false];
      if stagedSlot == slot {
        stagedSlot := NONE;
      }
      if prevActive == slot {
        prevActive := NONE;
      }
      assert RamState() == ram.(reg := Apply(was, Evict(slot)));
      hide DiskOf, LayoutOk, Apply, RamState, Reg, Restored, Attempted;
      err := PersistOrRestore(active, prev, staged, occ, recs);
      OutcomeOf(Sh(), d, ram, Evict(slot), Now(), err);
      OutcomeRoles(Sh(), On(d, ram), Evict(slot), Now(), err);
      NowIs();
    }

    method MarkStaged(slot: u8, info: Record) returns (err: Option<Errno>)
      requires Valid()
      modifies this, port, port.mem
      ensures Valid() && ready == old(ready)
      ensures !old(ready) ==> err == Some(EINVAL) && unchanged(this) && unchanged(port) && unchanged(port.mem)
      ensures old(ready) ==> Outcome(Sh(), old(Now()), OnMarkStaged(old(Reg()), slot, info), Now(), err)
      ensures if err.None? then Means(Op.Stage(slot, info), old(Reg()), Reg()) else Reg() == old(Reg())
      ensures old(ready) && old(port.failAfterPages) == 0 && OnMarkStaged(old(Reg()), slot, info).Do? ==> err.None?
      ensures old(port.failAfterPages) == 0 ==> port.failAfterPages == 0
    {
      if !ready || slot >= lay.slotCount {
        return Some(EINVAL);
      }
      if slot == activeSlot {
        return Some(EBUSY);
      }
      ghost var was, d, ram := Reg(), Now().disk, RamState();
      var active, prev, staged, occ, recs := activeSlot, prevActive, stagedSlot, occupied, rec;
      rec := rec[slot := info];
      occupied := occupied[slot := true];
      stagedSlot := slot;
      assert RamState() == ram.(reg := Apply(was, Op.Stage(slot, info)));
      hide DiskOf, LayoutOk, Apply, RamState, Reg, Restored, Attempted;
      err := PersistOrRestore(active, prev, staged, occ, recs);
      OutcomeOf(Sh(), d, ram, Op.Stage(slot, info), Now(), err);
      OutcomeRoles(Sh(), On(d, ram), Op.Stage(slot, info), Now(), err);
      NowIs();
    }

    // The outgoing model stays registered; held says it cannot give up the NPU.
    method Activate(slot: u8, held: bool) returns (err: Option<Errno>)
      requires Valid()
      modifies this, port, port.mem
      ensures Valid() && ready == old(ready)
      ensures !old(ready) ==> err == Some(EINVAL) && unchanged(this) && unchanged(port) && unchanged(port.mem)
      ensures old(ready) ==> Outcome(Sh(), old(Now()), OnActivate(old(Reg()), slot, held), Now(), err)
      ensures if err.None? then Means(Op.Activate(slot), old(Reg()), Reg()) else Reg() == old(Reg())
      ensures old(ready) && old(port.failAfterPages) == 0 && OnActivate(old(Reg()), slot, held).Do? ==> err.None?
      ensures old(port.failAfterPages) == 0 ==> port.failAfterPages == 0
    {
      if !ready || slot >= lay.slotCount {
        return Some(EINVAL);
      }
      if !occupied[slot] {
        return Some(ENOENT);
      }
      if slot == activeSlot {
        return Some(EALREADY);
      }
      var oldActive := activeSlot;
      if oldActive != NONE && held {
        return Some(EBUSY);
      }
      ghost var was, d, ram := Reg(), Now().disk, RamState();
      var prev, staged, occ, recs := prevActive, stagedSlot, occupied, rec;
      activeSlot := slot;
      prevActive := oldActive;
      if stagedSlot == slot {
        stagedSlot := NONE;
      }
      assert RamState() == ram.(reg := Apply(was, Op.Activate(slot)));
      hide DiskOf, LayoutOk, Apply, RamState, Reg, Restored, Attempted;
      err := PersistOrRestore(oldActive, prev, staged, occ, recs);
      OutcomeOf(Sh(), d, ram, Op.Activate(slot), Now(), err);
      OutcomeRoles(Sh(), On(d, ram), Op.Activate(slot), Now(), err);
      NowIs();
    }

    // The pivot if it is usable; else the last occupied, non-active, non-staged slot.
    method FindRollback() returns (prev: u8)
      requires Valid() && ready
      ensures |occupied| <= MAX_SLOTS && prev == RollbackTarget(Reg())
    {
      LayoutCounts(port.g, lay);
      hide LayoutOk;
      var cur := activeSlot;
      prev := NONE;
      if prevActive != NONE && prevActive != cur && occupied[prevActive] {
        return prevActive;
      }
      for s := 0 to lay.slotCount
        invariant prev == LastCandidate(Reg(), s)
      {
        if occupied[s] && s != cur && s != stagedSlot {
          prev := s;
        }
      }
    }

    method Rollback(held: bool) returns (err: Option<Errno>)
      requires Valid()
      modifies this, port, port.mem
      ensures Valid() && ready == old(ready)
      ensures !old(ready) ==> err == Some(EINVAL) && unchanged(this) && unchanged(port) && unchanged(port.mem)
      ensures old(ready) ==>
        |old(occupied)| <= MAX_SLOTS && Outcome(Sh(), old(Now()), OnRollback(old(Reg()), held), Now(), err)
      ensures if err.None? then Means(Op.Rollback, old(Reg()), Reg()) else Reg() == old(Reg())
      ensures old(ready) && old(port.failAfterPages) == 0 && |old(occupied)| <= MAX_SLOTS &&
              OnRollback(old(Reg()), held).Do? ==>
        err.None?
      ensures old(port.failAfterPages) == 0 ==> port.failAfterPages == 0
    {
      if !ready {
        return Some(EINVAL);
      }
      var cur := activeSlot;
      var target := FindRollback();
      if target == NONE {
        return Some(ENOENT);
      }
      if cur != NONE && held {
        return Some(EBUSY);
      }
      ghost var was, d, ram := Reg(), Now().disk, RamState();
      var prev, staged, occ, recs := prevActive, stagedSlot, occupied, rec;
      CandidateFits(was, |occupied|);
      activeSlot := target;
      prevActive := cur;
      assert RamState() == ram.(reg := Apply(was, Op.Rollback));
      hide DiskOf, LayoutOk, Apply, RamState, Reg, Restored, Attempted, RollbackTarget;
      err := PersistOrRestore(cur, prev, staged, occ, recs);
      OutcomeOf(Sh(), d, ram, Op.Rollback, Now(), err);
      OutcomeRoles(Sh(), On(d, ram), Op.Rollback, Now(), err);
      NowIs();
    }

    method ClearStaged() returns (err: Option<Errno>)
      requires Valid()
      modifies this, port, port.mem
      ensures Valid() && ready == old(ready)
      ensures !old(ready) ==> err == Some(EINVAL) && unchanged(this) && unchanged(port) && unchanged(port.mem)
      ensures old(ready) ==> Outcome(Sh(), old(Now()), OnClearStaged(old(Reg())), Now(), err)
      ensures err.Some? || old(stagedSlot) == NONE ==> Reg() == old(Reg())
      ensures err.None? && old(stagedSlot) != NONE ==> Means(Op.ClearStaged, old(Reg()), Reg())
      ensures old(ready) && old(port.failAfterPages) == 0 && OnClearStaged(old(Reg())).Do? ==> err.None?
      ensures old(port.failAfterPages) == 0 ==> port.failAfterPages == 0
    {
      if !ready {
        return Some(EINVAL);
      }
      if stagedSlot == NONE {
        return None;
      }
      ghost var was, d, ram := Reg(), Now().disk, RamState();
      var s, occ := stagedSlot, occupied;
      var active, prev, recs := activeSlot, prevActive, rec;
      occupied := occupied[s := false];
      stagedSlot := NONE;
      assert RamState() == ram.(reg := Apply(was, Op.ClearStaged));
      hide DiskOf, LayoutOk, Apply, RamState, Reg, Restored, Attempted;
      err := PersistOrRestore(active, prev, s, occ, recs);
      OutcomeOf(Sh(), d, ram, Op.ClearStaged, Now(), err);
      OutcomeRoles(Sh(), On(d, ram), Op.ClearStaged, Now(), err);
      NowIs();
    }

    // ---- install ----

    // Erase the slot, write the packaged model and check what landed.
    method WriteSlot(slot: u8, info: Record, data: seq<u8>, crc: u32) returns (err: Option<Errno>)
      requires Valid() && ready && slot < lay.slotCount && |data| > 0 && SYNM_HDR + |data| <= lay.slotSize
      requires crc == Crc(data)
      modifies port, port.mem
      ensures Placed(port.g, lay, port.mem[..])
      ensures SlotChanged(old(Now().disk), DiskOf(port.g, lay, port.mem[..]), slot)
      ensures err.None? ==> HoldsModel(DiskOf(port.g, lay, port.mem[..]), slot, info, data, crc)
      ensures old(port.failAfterPages) == 0 ==> err.None? && port.failAfterPages == 0
    {
      ghost var m := port.mem[..];
      RegionFits(port.g, lay, m, 2 + slot);
      LayoutCounts(port.g, lay);
      var off, size := lay.slotOff[slot], lay.slotSize;
      assert RegionOff(lay, 2 + slot) == off && RegionSize(lay, 2 + slot) == size;
      assert Room(port.g, off, size, SYNM_HDR + |data|);
      hide LayoutOk, RamOk, SameOutside, DiskOf, Splice, Room, Sound, Crc, SynmHeader, Padded, EraseLen, CrcUpTo,
           RegionAt;
      var header := SynmHeader(info, |data|, crc);
      err := WriteModel(port, off, size, header, data);
      RegionChanged(port.g, lay, m, port.mem[..], 2 + slot);
      if err.Some? {
        return err;
      }
      ModelLanded(port.g, lay, m, port.mem[..], slot, info, data, crc);
      // verify what actually landed in flash before committing
      var found := FlashCrc(port, off as int + SYNM_HDR, |data|, IO_BUF);
      match found {
        case Err(e) =>
          err := Some(e);
        case Ok(flashCrc) =>
          if flashCrc as int != crc {
            err := Some(EILSEQ);
          }
      }
    }

    method CommitInstall(slot: u8, r: Record) returns (err: Option<Errno>)
      requires Valid() && ready && slot < lay.slotCount
      modifies this, port, port.mem
      ensures Valid() && ready
      ensures Outcome(Sh(), old(Now()), Do(Op.Install(slot, r)), Now(), err)
      ensures if err.None? then Means(Op.Install(slot, r), old(Reg()), Reg()) else Reg() == old(Reg())
      ensures old(port.failAfterPages) == 0 ==> err.None? && port.failAfterPages == 0
    {
      ghost var was, d, ram := Reg(), Now().disk, RamState();
      var oldActive, saved := activeSlot, rec;
      var occ, staged, prev := occupied, stagedSlot, prevActive;
      rec := rec[slot := r];
      occupied := occupied[slot := true];
      if stagedSlot == slot {
        stagedSlot := NONE;
      }
      activeSlot := slot;
      if oldActive != slot {
        prevActive := oldActive;
      }
      assert RamState() == ram.(reg := Apply(was, Op.Install(slot, r)));
      hide DiskOf, LayoutOk, Apply, RamState, Reg, Restored, Attempted;
      err := PersistOrRestore(oldActive, prev, staged, occ, saved);
      OutcomeOf(Sh(), d, ram, Op.Install(slot, r), Now(), err);
      OutcomeRoles(Sh(), On(d, ram), Op.Install(slot, r), Now(), err);
      NowIs();
    }

    // One-call install: free the staging slot, write the model there, verify it and make
    // it active. slot and run tell the specification which slot was chosen and which
    // steps of the machine the call took.
    method Install(info: Record, data: seq<u8>, dropped: Option<Errno>)
      returns (err: Option<Errno>, ghost slot: u8, ghost run: seq<Event>)
      requires Valid() && SYNM_HDR + |data| < 0x1_0000_0000
      modifies this, port, port.mem
      ensures Valid() && ready == old(ready)
      ensures InstallRefusal(old(ready), info, data, lay.slotSize).Some? ==>
        err == InstallRefusal(old(ready), info, data, lay.slotSize) &&
        unchanged(this) && unchanged(port) && unchanged(port.mem)
      ensures old(ready) && old(generation) < 0xFFFF_FFFE ==> Reaches(Sh(), old(Now()), run, Now())
      ensures err.None? ==> old(ready) && StagingChoice(old(Reg()), slot)
      ensures err.None? ==> WasInstalled(Now(), old(Reg()), slot, lay, info, data)
      // The new model is active and the one that was active before is the pivot.
      ensures err.None? && RolesOk(old(Reg()), lay.slotCount) ==>
        && slot < |old(occupied)| && slot != old(activeSlot)
        && activeSlot == slot && prevActive == old(activeSlot)
        && stagedSlot == (if old(stagedSlot) == slot then NONE else old(stagedSlot))
        && occupied == old(occupied)[slot := true]
      ensures old(port.failAfterPages) == 0 && dropped.None? && RolesOk(old(Reg()), lay.slotCount) ==>
        err == InstallRefusal(old(ready), info, data, lay.slotSize)
    {
      run, slot := [], 0;
      if !ready || |data| == 0 || info[0] == 0 {
        return Some(EINVAL), slot, run;
      }
      ghost var st := Now();
      LayoutCounts(port.g, lay);
      StagingExists(Reg());
      var chosen := StagingSlot();
      var s := chosen.value;
      slot := s;
      var total := SYNM_HDR + |data|;
      if total > lay.slotSize {
        return Some(EFBIG), slot, run;
      }
      var crc := Crc(data);
      if RecordCrc(info) != 0 && RecordCrc(info) != crc {
        return Some(EILSEQ), slot, run;
      }
      ghost var roles := RolesOk(Reg(), lay.slotCount);
      if roles {
        StagingChoiceSafe(Reg(), s, s);
      }
      hide LayoutOk, DiskOf, RolesOk, StagingChoice, Outcome, Reaches, WasInstalled, Crc, Freed, RamOk;
      err, run := InstallInto(s, info, data, crc, dropped);
      if err.None? && roles {
        InstalledRoles(Now(), old(Reg()), s, lay, info, data);
        NowIs();
      }
    }

    method InstallInto(s: u8, info: Record, data: seq<u8>, crc: u32, dropped: Option<Errno>)
      returns (err: Option<Errno>, ghost run: seq<Event>)
      requires Valid() && ready && s < lay.slotCount && |data| > 0 && SYNM_HDR + |data| <= lay.slotSize
      requires crc == Crc(data)
      modifies this, port, port.mem
      ensures Valid() && ready
      ensures old(generation) < 0xFFFF_FFFE ==> Reaches(Sh(), old(Now()), run, Now())
      ensures err.None? ==> WasInstalled(Now(), old(Reg()), s, lay, info, data)
      ensures old(port.failAfterPages) == 0 && dropped.None? && s != old(activeSlot) ==> err.None?
    {
      run := [];
      ghost var sh, st := Sh(), Now();
      ghost var counted := generation < 0xFFFF_FFFE;
      err := BeginStaging(s, dropped);
      ghost var st1 := Now();
      if counted {
        run := StagingIsRun(sh, st, s, dropped, st1, err);
      }
      if err.Some? {
        return err, run;
      }
      FreedWhenStaged(sh, st, s, dropped, st1);
      hide LayoutOk, DiskOf, Outcome, Reaches, WasInstalled, Crc, Freed, RamOk, HoldsModel, SlotChanged;
      err := WriteSlot(s, info, data, crc);
      ghost var st2 := Now();
      if counted {
        WriteIsStep(sh, st, run, st1, st2, s);
        run := run + [Program(s, st2.disk.slots[s])];
      }
      if err.Some? {
        return err, run;
      }
      var r := PlacedRecord(info, lay.slotOff[s], |data|, crc);
      PayloadChecked(st2.disk, s, info, lay.slotOff[s], data, crc);
      err := CommitInstall(s, r);
      if counted {
        InstallIsStep(sh, st, run, st2, s, r, Now(), err);
        run := run + [AttemptEvent(st2.ram, Op.Install(s, r), Now(), err)];
      }
      InstalledWhenDone(sh, st, st1, st2, s, lay, info, data, Now(), err);
    }
  }

  lemma FreedWhenStaged(sh: Shape, st: State, slot: u8, dropped: Option<Errno>, after: State)
    requires StateOk(sh, st) && st.On? && slot < sh.slots
    requires Outcome(sh, st, OnBeginStaging(st.ram.reg, slot, dropped), after, Option.None)
    ensures after.ram.reg == Freed(st.ram.reg, slot) && !after.ram.reg.occupied[slot] && slot != after.ram.reg.active
    ensures after.ram.gen <= st.ram.gen + 1 || st.ram.gen == 0xFFFF_FFFF
  {
    hide Fits, Region;
  }

  lemma WriteIsStep(sh: Shape, st: State, run: seq<Event>, st1: State, st2: State, s: u8)
    requires StateOk(sh, st) && Reaches(sh, st, run, st1) && st1.On? && s < sh.slots && !st1.ram.reg.occupied[s]
    requires DiskOk(sh, st2.disk) && SlotChanged(st1.disk, st2.disk, s) && st2 == On(st2.disk, st1.ram)
    ensures Reaches(sh, st, run + [Program(s, st2.disk.slots[s])], st2)
  {
    OneMore(sh, st, run, st1, Program(s, st2.disk.slots[s]));
    hide Reaches;
  }

  lemma PayloadChecked(d: Disk, s: u8, info: Record, off: u32, data: seq<u8>, crc: u32)
    requires HoldsModel(d, s, info, data, crc) && crc == Crc(data)
    ensures PayloadOk(d.slots[s], PlacedRecord(info, off, |data|, crc))
  {
    PlacedReads(info, off, |data|, crc);
    hide PlacedRecord, FlashSize, RecordCrc, SynmHeader, Crc;
    var slot := d.slots[s];
    SliceOfSlice(slot, 0, SYNM_HDR + |data|, SYNM_HDR, SYNM_HDR + |data|);
    assert slot[..SYNM_HDR + |data|][SYNM_HDR..] == data;
    assert slot[SYNM_HDR..SYNM_HDR + |data|] == data;
  }

  lemma InstallIsStep(sh: Shape, st: State, run: seq<Event>, st2: State, s: u8, r: Record, after: State,
                      err: Option<Errno>)
    requires StateOk(sh, st) && Reaches(sh, st, run, st2) && st2.On? && st2.ram.gen < 0xFFFF_FFFF
    requires s < sh.slots && !st2.ram.reg.occupied[s] && s != st2.ram.reg.active && PayloadOk(st2.disk.slots[s], r)
    requires Outcome(sh, st2, Do(Op.Install(s, r)), after, err)
    ensures StateOk(sh, after) && after.On?
    ensures Reaches(sh, st, run + [AttemptEvent(st2.ram, Op.Install(s, r), after, err)], after)
  {
    var op := Op.Install(s, r);
    assert Commits(sh, st2, op);
    AttemptIsStep(sh, st2, op, after, err);
    hide Reaches, Attempted, AttemptEvent;
    OneMore(sh, st, run, st2, AttemptEvent(st2.ram, op, after, err));
  }

  lemma InstalledWhenDone(sh: Shape, st: State, st1: State, st2: State, s: u8, lay: Layout, info: Record, data: seq<u8>,
                          after: State, err: Option<Errno>)
    requires st.On? && StateOk(sh, st) && s < sh.slots && Shaped(lay) && 0 < |data| < 0x1_0000_0000
    requires st1.On? && st2 == On(st2.disk, st1.ram) && st1.ram.reg == Freed(st.ram.reg, s)
    requires HoldsModel(st2.disk, s, info, data, Crc(data))
    requires Outcome(sh, st2, Do(Op.Install(s, PlacedRecord(info, lay.slotOff[s], |data|, Crc(data)))), after, err)
    ensures err.None? ==> WasInstalled(after, st.ram.reg, s, lay, info, data)
  {
    hide Crc, PlacedRecord, Freed, Region, SynmHeader;
  }

  // The refusals of install that come before anything is touched.
  function InstallRefusal(ready: bool, info: Record, data: seq<u8>, slotSize: nat): Option<Errno> {
    if !ready || |data| == 0 || info[0] == 0 then Some(EINVAL)
    else if SYNM_HDR + |data| > slotSize then Some(EFBIG)
    else if RecordCrc(info) != 0 && RecordCrc(info) != Crc(data) then Some(EILSEQ)
    else Option.None
  }

  // The slot holds the packaged model, its record is in the registry, and it is active
  // with the previous active model as the pivot.
  ghost predicate WasInstalled(st: State, before: Registry, slot: u8, lay: Layout, info: Record, data: seq<u8>) {
    && st.On? && Shaped(lay) && slot < MAX_SLOTS && slot < |before.occupied| == |before.recs|
    && 0 < |data| < 0x1_0000_0000
    && HoldsModel(st.disk, slot, info, data, Crc(data))
    && st.ram.reg == Installed(Freed(before, slot), slot, PlacedRecord(info, lay.slotOff[slot], |data|, Crc(data)))
  }

  lemma InstalledRoles(st: State, before: Registry, slot: u8, lay: Layout, info: Record, data: seq<u8>)
    requires WasInstalled(st, before, slot, lay, info, data)
    requires RolesOk(before, |before.occupied|) && slot != before.active
    ensures st.ram.reg.active == slot && st.ram.reg.prev == before.active
    ensures st.ram.reg.staged == if before.staged == slot then NONE else before.staged
    ensures st.ram.reg.occupied == before.occupied[slot := true]
  {
    hide HoldsModel, PlacedRecord, Crc;
  }

  // Only the slot's bytes differ.
  ghost predicate SlotChanged(d: Disk, e: Disk, slot: nat) {
    slot < |d.slots| && slot < |e.slots| && e == d.(slots := d.slots[slot := e.slots[slot]])
  }

  ghost predicate HoldsModel(d: Disk, slot: nat, info: Record, data: seq<u8>, crc: u32) {
    && slot < |d.slots| && |data| < 0x1_0000_0000 && SYNM_HDR + |data| <= |d.slots[slot]|
    && d.slots[slot][..SYNM_HDR + |data|] == SynmHeader(info, |data|, crc) + data
  }

  lemma ModelLanded(g: Geometry, lay: Layout, m: seq<u8>, n: seq<u8>, slot: nat, info: Record, data: seq<u8>, crc: u32)
    requires Placed(g, lay, m) && Placed(g, lay, n) && slot < lay.slotCount && SYNM_HDR + |data| <= lay.slotSize
    requires RegionOff(lay, 2 + slot) as int + RegionSize(lay, 2 + slot) as int <= |m|
    requires EraseLen(g, SYNM_HDR + |data|) <= lay.slotSize
    requires n == Splice(m, RegionOff(lay, 2 + slot),
                         Padded(SynmHeader(info, |data|, crc) + data, EraseLen(g, SYNM_HDR + |data|)))
    requires crc == Crc(data)
    ensures HoldsModel(DiskOf(g, lay, n), slot, info, data, crc)
    ensures var off := RegionOff(lay, 2 + slot);
            off as int + SYNM_HDR + |data| <= |n| && CrcUpTo(n, off as int + SYNM_HDR, |data|) as int == crc
  {
    var off := RegionOff(lay, 2 + slot);
    var img := SynmHeader(info, |data|, crc) + data;
    hide LayoutOk, SynmHeader, EraseLen, RegionOff, Crc, Splice, Padded, DiskOf, RoundUp, CrcUpTo, Placed, HoldsModel;
    PaddedReads(m, off, img, EraseLen(g, SYNM_HDR + |data|));
    assert n[off..off + |img|] == img;
    ModelInSlot(g, lay, n, slot, info, data, crc);
    SliceOfSlice(n, off, off + |img|, SYNM_HDR, |img|);
    assert img[SYNM_HDR..] == data;
    assert n[off as int + SYNM_HDR..off as int + SYNM_HDR + |data|] == data;
    CrcIsWhole(n, off as int + SYNM_HDR, data);
  }

  lemma ModelInSlot(g: Geometry, lay: Layout, n: seq<u8>, slot: nat, info: Record, data: seq<u8>, crc: u32)
    requires Placed(g, lay, n) && slot < lay.slotCount && SYNM_HDR + |data| <= lay.slotSize && crc == Crc(data)
    requires var off := RegionOff(lay, 2 + slot);
             var img := SynmHeader(info, |data|, crc) + data;
             off as int + |img| <= |n| && n[off..off + |img|] == img
    ensures HoldsModel(DiskOf(g, lay, n), slot, info, data, crc)
  {
    var off := RegionOff(lay, 2 + slot);
    var img := SynmHeader(info, |data|, crc) + data;
    RegionFits(g, lay, n, 2 + slot);
    assert DiskOf(g, lay, n).slots[slot] == RegionAt(g, lay, n, 2 + slot);
    hide LayoutOk, SynmHeader, RegionOff, Crc, DiskOf;
    SliceOfSlice(n, off, off as int + RegionSize(lay, 2 + slot) as int, 0, |img|);
  }

  lemma CrcIsWhole(m: seq<u8>, off: nat, data: seq<u8>)
    requires off + |data| <= |m| && m[off..off + |data|] == data
    ensures CrcUpTo(m, off, |data|) as int == Crc(data)
  {
    hide Update;
  }

  lemma PaddedReads(m: seq<u8>, off: nat, img: seq<u8>, size: nat)
    requires |img| <= size && off + size <= |m|
    ensures Splice(m, off, Padded(img, size))[off..off + |img|] == img
  {
  }

  // A call that changed the registry by op and then committed or restored it.
  lemma OutcomeOf(sh: Shape, d: Disk, ram: Ram, op: Op, after: State, err: Option<Errno>)
    requires Applies(ram.reg, op) && Restored(sh, d, ram.(reg := Apply(ram.reg, op)), ram.reg, after, err)
    requires StateOk(sh, after) && after.On? && RamOk(sh, ram)
    ensures Outcome(sh, On(d, ram), Do(op), after, err)
  {
    hide Attempted, Apply, Fits;
    assert ram.(reg := Apply(ram.reg, op)).(reg := ram.reg) == ram;
  }

  lemma OutcomeRoles(sh: Shape, st: State, op: Op, after: State, err: Option<Errno>)
    requires Outcome(sh, st, Do(op), after, err)
    requires Applies(st.ram.reg, op) && (op.Rollback? ==> RollbackTarget(st.ram.reg) != NONE)
    ensures if err.None? then Means(op, st.ram.reg, after.ram.reg) else after.ram.reg == st.ram.reg
  {
    AppliedMeans(op, st.ram.reg);
    hide Apply, Fits, Region, Means, RollbackTarget;
  }

  ghost predicate Persisted(sh: Shape, d: Disk, ram: Ram, after: State, err: Option<Errno>) {
    ShapeOk(sh) && DiskOk(sh, d) && RamOk(sh, ram) && Attempted(sh, d, ram, ram.reg, after, err)
  }

  // ram holds the registry being committed; was is the one before.
  ghost predicate Restored(sh: Shape, d: Disk, ram: Ram, was: Registry, after: State, err: Option<Errno>) {
    && ShapeOk(sh) && DiskOk(sh, d) && RamOk(sh, ram) && Fits(was, sh.slots)
    && Attempted(sh, d, ram.(reg := was), ram.reg, after, err)
  }

  lemma RestoredAfter(sh: Shape, d: Disk, ram: Ram, was: Registry, tried: State, after: State, err: Option<Errno>)
    requires Persisted(sh, d, ram, tried, err) && Fits(was, sh.slots)
    requires tried.On? && after == if err.None? then tried else On(tried.disk, tried.ram.(reg := was))
    ensures Restored(sh, d, ram, was, after, err)
  {
    hide Attempted, Fits;
    assert ram.(reg := was).(reg := ram.reg) == ram;
    RestoredIsAttempted(sh, d, ram.(reg := was), ram.reg, tried, after, err);
  }

  function FailedRam(ram: Ram, copy: nat, wear: u32): Ram
    requires copy < |ram.wear| && copy < |ram.valid|
  {
    ram.(wear := ram.wear[copy := wear], valid := ram.valid[copy := false])
  }

  function DoneRam(ram: Ram, copy: nat, gen: u32, wear: u32): Ram
    requires copy < |ram.wear| && copy < |ram.valid|
  {
    Ram(ram.reg, gen, ram.wear[copy := wear], ram.valid[copy := true], copy)
  }

  // The registry copy is the image, padded with erased bytes.
  ghost predicate Holds(sh: Shape, d: Disk, copy: nat, img: Image) {
    && copy < |d.copies| && sh.page > 0 && |img.reg.occupied| == |img.reg.recs| <= MAX_SLOTS
    && var built := Built(img, sh.page);
       |built| <= sh.registrySize && d.copies[copy] == built + Erased(sh.registrySize - |built|)
  }

  predicate NextWear(ram: Ram, copy: nat, w: u32) {
    copy < |ram.wear| && w == Wrap32(ram.wear[copy] as int + 1)
  }

  lemma DoneCopy(sh: Shape, d: Disk, e: Disk, ram: Ram, copy: nat, gen: u32, w: u32)
    requires ShapeOk(sh) && DiskOk(sh, d) && DiskOk(sh, e) && RamOk(sh, ram) && copy < 2 && Replaces(d, e, copy)
    requires NextWear(ram, copy, w) && Holds(sh, e, copy, Image(gen, w, ram.reg))
    ensures RamOk(sh, DoneRam(ram, copy, gen, w))
    ensures Copied(sh, d, ram, copy, gen, On(e, DoneRam(ram, copy, gen, w)), Option.None)
  {
    hide Built, Fits, Wrap32;
  }

  lemma FailedCopy(sh: Shape, d: Disk, e: Disk, ram: Ram, copy: nat, gen: u32, wear: u32, err: Option<Errno>)
    requires ShapeOk(sh) && DiskOk(sh, d) && DiskOk(sh, e) && RamOk(sh, ram) && copy < 2 && Replaces(d, e, copy)
    requires err.Some?
    ensures RamOk(sh, FailedRam(ram, copy, wear))
    ensures Copied(sh, d, ram, copy, gen, On(e, FailedRam(ram, copy, wear)), err)
  {
    hide Region, Fits, Wrap32;
  }

  // e is d but for one registry copy.
  ghost predicate Replaces(d: Disk, e: Disk, copy: nat) {
    copy < |d.copies| && copy < |e.copies| && e == d.(copies := d.copies[copy := e.copies[copy]])
  }

  lemma LayoutCounts(g: Geometry, lay: Layout)
    requires Sound(g) && Shaped(lay) && LayoutOk(g, lay)
    ensures 2 <= lay.slotCount <= MAX_SLOTS && g.page > 0
  {
  }

  lemma RecsExtend(recs: seq<Record>, s: nat)
    requires s < |recs|
    ensures Recs(recs[..s + 1]) == Recs(recs[..s]) + recs[s]
  {
    assert recs[..s + 1][..s] == recs[..s];
  }

  lemma ZeroCrcImage(img: Image, header: seq<u8>)
    requires |img.reg.occupied| == |img.reg.recs| <= MAX_SLOTS
    requires header == Header(VERSION, |img.reg.recs|, img.reg.prev, img.gen, img.wear,
                              img.reg.active, img.reg.staged, MaskByte(img.reg.occupied), 0)
    ensures header + Recs(img.reg.recs) == ImageWithCrc(img, 0)
  {
  }

  lemma CrcPutIn(img: Image, crc: u32)
    requires |img.reg.occupied| == |img.reg.recs| <= MAX_SLOTS
    ensures ImageWithCrc(img, 0)[..CRC_AT] + Le32(crc) + ImageWithCrc(img, 0)[HDR_SIZE..] == ImageWithCrc(img, crc)
  {
    hide MaskByte, Recs, Le32, Le16;
  }

  lemma BlankInRegion(m: seq<u8>, off: nat, d: seq<u8>, page: nat)
    requires off + |d| <= |m| && m[off..off + |d|] == d && page <= |d|
    ensures BlankAt(m, off, page) == BlankAt(d, 0, page)
  {
    assert forall i :: 0 <= i < |d| ==> d[i] == m[off + i];
    assert forall i :: off <= i < off + |d| ==> m[i] == d[i - off];
  }

  lemma HeaderOfPrefix(d: seq<u8>, hdr: seq<u8>, n: nat)
    requires HDR_SIZE <= |d| && hdr == d[..HDR_SIZE]
    ensures HeaderOk(hdr, n) == HeaderOk(d, n) && SlotsIn(hdr) == SlotsIn(d) && PrevIn(hdr) == PrevIn(d)
    ensures Rd32(hdr, 8) == Rd32(d, 8) && Rd32(hdr, 12) == Rd32(d, 12) && Rd32(hdr, CRC_AT) == Rd32(d, CRC_AT)
    ensures hdr[16] == d[16] && hdr[17] == d[17] && hdr[18] == d[18]
  {
    hide PowerOfTwo;
  }

  lemma ImageOfPrefix(d: seq<u8>, buf: seq<u8>, slots: nat, n: nat)
    requires ImgSize(slots) <= |d| && buf == d[..ImgSize(slots)]
    ensures CrcZeroed(buf, ImgSize(slots)) == CrcZeroed(d, ImgSize(slots))
    ensures Unpacked(buf, slots, n) == Unpacked(d, slots, n)
  {
    assert forall s :: 0 <= s < slots ==> Record0(buf, s) == Record0(d, s);
  }

  lemma BlockCompares(m: seq<u8>, img: seq<u8>, off: nat, pos: nat, n: nat, verify: nat)
    requires pos + n <= verify <= |img| && off + verify <= |m| && m[off..off + pos] == img[..pos]
    ensures m[off + pos..off + pos + n] == img[pos..pos + n] ==> m[off..off + pos + n] == img[..pos + n]
    ensures m[off..off + verify] == img[..verify] ==> m[off + pos..off + pos + n] == img[pos..pos + n]
  {
    assert m[off..off + pos + n] == m[off..off + pos] + m[off + pos..off + pos + n];
    assert img[..pos + n] == img[..pos] + img[pos..pos + n];
    SliceOfSlice(m, off, off + verify, pos, pos + n);
    SliceOfSlice(img, 0, verify, pos, pos + n);
  }

  lemma WroteInside(a: seq<u8>, b: seq<u8>, c: seq<u8>, off: nat, size: nat, len: nat)
    requires len <= size && off + size <= |a| && SameOutside(a, b, off, size) && SameOutside(b, c, off, len)
    ensures SameOutside(a, c, off, size)
  {
    assert c[off + size..] == c[off + len..][size - len..];
    assert b[off + size..] == b[off + len..][size - len..];
  }

  lemma ErasedIsBlank(m: seq<u8>, off: nat, size: nat, len: nat)
    requires len <= size && off + size <= |m|
    ensures BlankAt(Splice(m, off, Erased(size)), off, len)
  {
  }

  lemma ErasedThenWritten(m: seq<u8>, off: nat, size: nat, img: seq<u8>)
    requires |img| <= size && off + size <= |m|
    ensures Splice(Splice(m, off, Erased(size)), off, img) == Splice(m, off, img + Erased(size - |img|))
  {
  }

  lemma LandedReads(m: seq<u8>, after: seq<u8>, off: nat, whole: seq<u8>, img: seq<u8>, verify: nat)
    requires off + |whole| <= |m| && after == Splice(m, off, whole) && verify <= |img| <= |whole|
    requires whole[..|img|] == img
    ensures after[off..off + verify] == img[..verify]
  {
  }

  lemma PagesAligned(g: Geometry, lay: Layout, i: nat)
    requires Sound(g) && Shaped(lay) && LayoutOk(g, lay) && i < 2 + lay.slotCount
    requires RegionOff(lay, i) % g.sector == 0
    ensures RegionOff(lay, i) % g.page == 0
  {
    ModTrans(RegionOff(lay, i), g.sector, g.page);
  }
}
