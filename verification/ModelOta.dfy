// The model update engine: a packaged model is streamed into the staging slot, page by
// page, checked as it landed and handed to the store.
//
// The second core is not part of this model, and no other caller changes the store
// between the calls of one session.
module ModelOta {
  import opened Errno
  import opened Bytes
  import opened Crc32
  import opened FlashRam
  import opened StoreImage
  import opened StoreRoles
  import opened StoreRuns
  import opened StoreDisk
  import opened SlotImage
  import opened OtaStream
  import opened ModelStore

  datatype OtaState = Idle | Downloading | Validating | Staging | Ready | Error

  // The range holds the first w bytes of the stream and is erased beyond them.
  ghost predicate RangeHolds(mem: seq<u8>, off: nat, len: nat, stream: seq<u8>, w: nat) {
    && |stream| <= len && w <= len && off + len <= |mem|
    && mem[off..off + len] == Partly(Padded(stream, len), w)
  }

  lemma RangeErased(m: seq<u8>, off: nat, len: nat)
    requires off + len <= |m|
    ensures RangeHolds(Splice(m, off, Erased(len)), off, len, [], 0)
  {
    assert Partly(Padded([], len), 0) == Erased(len);
  }

  // Bytes beyond w do not show yet.
  lemma RangeGrows(mem: seq<u8>, off: nat, len: nat, stream: seq<u8>, more: seq<u8>, w: nat)
    requires RangeHolds(mem, off, len, stream, w) && w <= |stream| && |stream| + |more| <= len
    ensures RangeHolds(mem, off, len, stream + more, w)
  {
    assert Partly(Padded(stream + more, len), w) == Partly(Padded(stream, len), w);
  }

  lemma RangeIsSplice(mem: seq<u8>, off: nat, len: nat, stream: seq<u8>, w: nat)
    requires RangeHolds(mem, off, len, stream, w)
    ensures Splice(mem, off, Partly(Padded(stream, len), w)) == mem
  {
  }

  lemma SpliceIsRange(m: seq<u8>, off: nat, len: nat, stream: seq<u8>, w: nat)
    requires |stream| <= len && w <= len && off + len <= |m|
    ensures RangeHolds(Splice(m, off, Partly(Padded(stream, len), w)), off, len, stream, w)
  {
  }

  // The refusals of begin that come before anything is touched.
  function BeginRefusal(ready: bool, modelName: seq<u8>, total: nat, slotSize: nat): Option<Errno> {
    if |modelName| == 0 || modelName[0] == 0 || total <= SYNM_HDR then Some(EINVAL)
    else if !ready then Some(ENODEV)
    else if total > slotSize then Some(EFBIG)
    else None
  }

  class OtaEngine {
    const store: ModelStore
    const pageBuf: array<u8>
    var state: OtaState
    var slot: u8
    var name: seq<u8>
    var totalSize: u32
    var received: u32
    var lastError: Option<Errno>
    var hdr: seq<u8>
    var buffered: nat
    var writeOff: nat
    ghost var stream: seq<u8>   // the chunks accepted so far, joined

    ghost predicate Valid()
      reads this, store, pageBuf, store.port.mem
    {
      && store.Valid() && pageBuf.Length == IO_BUF && pageBuf != store.port.mem
      && |hdr| == SYNM_HDR && |name| == NAME_LEN
      && (state == Downloading ==> InSession())
    }

    // The slot of the session was freed for it.
    ghost predicate Owned()
      reads this`slot, this`totalSize, store
    {
      && store.Valid() && store.ready && slot < store.lay.slotCount
      && slot < |store.occupied| && !store.occupied[slot] && slot != store.activeSlot
      && SYNM_HDR < totalSize <= store.lay.slotSize
    }

    function Start(): nat
      requires Shaped(store.lay) && slot < MAX_SLOTS
      reads this`slot
    {
      store.lay.slotOff[slot]
    }

    ghost function Length(): nat
      requires Sound(store.port.g)
      reads this`totalSize
    {
      EraseLen(store.port.g, totalSize)
    }

    // Flash and buffer together hold the stream.
    ghost predicate Stored(s: seq<u8>)
      requires Shaped(store.lay) && Sound(store.port.g) && slot < MAX_SLOTS
      reads this`slot, this`totalSize, this`writeOff, this`buffered, pageBuf, store.port.mem
    {
      && writeOff + buffered == |s| <= Length() && buffered <= IO_BUF == pageBuf.Length
      && pageBuf[..buffered] == s[writeOff..]
      && (|s| < IO_BUF ==> writeOff == 0)
      && OnPage(store.port.g, Start(), writeOff, Length())
      && RangeHolds(store.port.mem[..], Start(), Length(), s, writeOff)
    }

    ghost predicate HeaderKept()
      reads this`hdr, this`stream
    {
      KeptFor(stream)
    }

    ghost predicate InSession()
      requires store.Valid()
      reads this, store, pageBuf, store.port.mem
    {
      && Owned() && slot < MAX_SLOTS
      && received as int == |stream| <= totalSize && |name| == NAME_LEN
      && HeaderPassed(stream, totalSize, name) && HeaderKept()
      && Stored(stream) && buffered < IO_BUF
    }

    constructor (store: ModelStore)
      requires store.Valid()
      ensures Valid() && fresh(pageBuf) && this.store == store && state == Idle
    {
      this.store := store;
      pageBuf := new u8[IO_BUF](_ => 0);
      state, slot := Idle, NONE;
      name, hdr := seq(NAME_LEN, _ => 0), seq(SYNM_HDR, _ => 0);
      totalSize, received, buffered, writeOff := 0, 0, 0, 0;
      lastError := None;
      stream := [];
    }

    // Session over, unsuccessfully.
    method EnterError(e: Errno) returns (err: Option<Errno>)
      modifies this`state, this`lastError
      ensures state == Error && lastError == err == Some(e)
    {
      state := Error;
      lastError := Some(e);
      return Some(e);
    }

    // ---- begin ----

    // A staged but unactivated predecessor is superseded; a failure to clear it is ignored.
    method ClearPredecessor() returns (ghost run: seq<Event>)
      requires store.Valid() && store.ready
      modifies store, store.port, store.port.mem
      ensures store.Valid() && store.ready && store.activeSlot == old(store.activeSlot)
      ensures old(store.generation) < 0xFFFF_FFFF ==>
        Reaches(store.Sh(), old(store.Now()), run, store.Now()) && store.generation <= old(store.generation) + 1
      ensures old(store.port.failAfterPages) == 0 ==> store.port.failAfterPages == 0
    {
      run := [];
      ghost var st := store.Now();
      if store.stagedSlot != NONE {
        var ignored := store.ClearStaged();
        ClearKeepsActive(store.Sh(), st, store.Now(), ignored);
        if st.ram.gen < 0xFFFF_FFFF {
          DecidedIsAllowed(st.ram.reg, OnClearStaged(st.ram.reg), 0, NO_RECORD, None, false);
          hide LayoutOk, Reaches, Allowed, Outcome, Fits;
          run := OutcomeIsRun(store.Sh(), st, OnClearStaged(st.ram.reg), store.Now(), ignored);
        }
      }
    }

    // Erase what the update will need of the slot.
    method EraseSlot() returns (err: Option<Errno>)
      requires Owned() && pageBuf.Length == IO_BUF && pageBuf != store.port.mem && slot < MAX_SLOTS
      requires buffered == writeOff == 0
      modifies store.port, store.port.mem
      ensures SlotChanged(old(store.Now().disk), store.Now().disk, slot)
      ensures err.None? ==> Stored([])
      ensures old(store.port.failAfterPages) == 0 ==> err.None? && store.port.failAfterPages == 0
    {
      ghost var c := store.port.Now();
      SessionRanged();
      ErasePages(store.port.g, store.lay, c.mem, slot, totalSize);
      assert Placed(store.port.g, store.lay, c.mem) && Start() + Length() <= |c.mem| && store.Valid();
      hide Ranged, LayoutOk, SlotChanged, DiskOf, EraseLen, Sound, Placed, WasErased, Aligned, OnPage, RangeHolds,
           Owned, Stored, RamOk;
      err := store.port.EraseSectors(store.lay.slotOff[slot], EraseLen(store.port.g, totalSize));
      SlotWasErased(store.port.g, store.lay, c, store.port.Now(), slot, Length(), err);
      if err.None? {
        NothingStored();
      }
    }

    lemma NothingStored()
      requires Shaped(store.lay) && Sound(store.port.g) && slot < MAX_SLOTS && pageBuf.Length == IO_BUF
      requires buffered == writeOff == 0 && OnPage(store.port.g, Start(), 0, Length())
      requires RangeHolds(store.port.mem[..], Start(), Length(), [], 0)
      ensures Stored([])
    {
      assert pageBuf[..0] == [];
      hide OnPage, RangeHolds, EraseLen;
    }

    // The fields of a new session.
    method Reset(s: u8, total: u32, modelName: seq<u8>)
      requires pageBuf.Length == IO_BUF
      modifies this
      ensures slot == s && totalSize == total && name == NameField(modelName) && stream == []
      ensures received == 0 && buffered == writeOff == 0 && |hdr| == SYNM_HDR && lastError == None
      ensures state == old(state)
    {
      slot, totalSize, received, buffered, writeOff := s, total, 0, 0, 0;
      lastError := None;
      name := NameField(modelName);
      hdr := seq(SYNM_HDR, _ => 0);
      stream := [];
    }

    // Start a session for a model of total bytes, header included.
    method Begin(modelName: seq<u8>, total: u32, dropped: Option<Errno>)
      returns (err: Option<Errno>, ghost run: seq<Event>)
      requires Valid()
      modifies this, store, store.port, store.port.mem
      ensures Valid()
      ensures BeginRefusal(old(store.ready), modelName, total, store.lay.slotSize).Some? ==>
        err == BeginRefusal(old(store.ready), modelName, total, store.lay.slotSize)
      ensures BeginRefusal(old(store.ready), modelName, total, store.lay.slotSize).Some? ==>
        unchanged(this) && unchanged(store) && unchanged(store.port) && unchanged(store.port.mem)
      ensures BeginRefusal(old(store.ready), modelName, total, store.lay.slotSize).None? ==>
        store.ready && Begun(err, modelName, total) && StagingChoice(old(store.Reg()), slot)
      ensures BeginRefusal(old(store.ready), modelName, total, store.lay.slotSize).None? ==>
        (old(store.generation) < 0xFFFF_FFFE ==> Reaches(store.Sh(), old(store.Now()), run, store.Now()))
      ensures old(store.port.failAfterPages) == 0 && dropped.None? && RolesOk(old(store.Reg()), store.lay.slotCount) ==>
        err == BeginRefusal(old(store.ready), modelName, total, store.lay.slotSize)
    {
      run := [];
      if |modelName| == 0 || modelName[0] == 0 || total <= SYNM_HDR {
        return Some(EINVAL), run;
      }
      if !store.ready {
        return Some(ENODEV), run;
      }
      LayoutCounts(store.port.g, store.lay);
      StagingExists(store.Reg());
      var chosen := store.StagingSlot();
      var s := chosen.value;
      if total > store.lay.slotSize {
        return Some(EFBIG), run;
      }
      if RolesOk(store.Reg(), store.lay.slotCount) {
        StagingChoiceSafe(store.Reg(), s, s);
      }
      hide LayoutOk, DiskOf, RolesOk, StagingChoice, Reaches, Begun, RamOk;
      err, run := StartSession(s, modelName, total, dropped);
    }

    method StartSession(s: u8, modelName: seq<u8>, total: u32, dropped: Option<Errno>)
      returns (err: Option<Errno>, ghost run: seq<Event>)
      requires store.Valid() && store.ready && pageBuf.Length == IO_BUF && pageBuf != store.port.mem
      requires s < store.lay.slotCount <= MAX_SLOTS && SYNM_HDR < total <= store.lay.slotSize
      modifies this, store, store.port, store.port.mem
      ensures Valid() && store.ready && Begun(err, modelName, total) && slot == s
      ensures old(store.generation) < 0xFFFF_FFFE ==> Reaches(store.Sh(), old(store.Now()), run, store.Now())
      ensures old(store.port.failAfterPages) == 0 && dropped.None? && s != old(store.activeSlot) ==> err.None?
    {
      ghost var sh, st := store.Sh(), store.Now();
      ghost var counted := store.generation < 0xFFFF_FFFE;
      hide LayoutOk, DiskOf, RamOk, Reaches, Stored, SlotChanged;
      run := ClearPredecessor();
      ghost var mid := store.Now();
      Reset(s, total, modelName);
      ghost var more;
      err, more := Occupy(dropped);
      if counted {
        RunsJoin(sh, st, run, mid, more, store.Now());
      }
      run := run + more;
    }

    method Occupy(dropped: Option<Errno>) returns (err: Option<Errno>, ghost run: seq<Event>)
      requires store.Valid() && store.ready && pageBuf.Length == IO_BUF && pageBuf != store.port.mem
      requires slot < store.lay.slotCount <= MAX_SLOTS && SYNM_HDR < totalSize <= store.lay.slotSize
      requires |name| == NAME_LEN && |hdr| == SYNM_HDR && stream == [] && received == 0 && buffered == writeOff == 0
      modifies this`state, this`lastError, store, store.port, store.port.mem
      ensures Valid() && store.ready && BegunState(err)
      ensures old(store.generation) < 0xFFFF_FFFF ==> Reaches(store.Sh(), old(store.Now()), run, store.Now())
      ensures old(store.port.failAfterPages) == 0 && dropped.None? && slot != old(store.activeSlot) ==> err.None?
    {
      hide LayoutOk, DiskOf, RamOk, Reaches, Stored, SlotChanged, Owned, InSession;
      err, run := Prepare(dropped);
      if err.Some? {
        err := EnterError(err.value);
      } else {
        state := Downloading;
        Opens();
      }
    }

    method Prepare(dropped: Option<Errno>) returns (err: Option<Errno>, ghost run: seq<Event>)
      requires store.Valid() && store.ready && pageBuf.Length == IO_BUF && pageBuf != store.port.mem
      requires slot < store.lay.slotCount <= MAX_SLOTS && SYNM_HDR < totalSize <= store.lay.slotSize
      requires buffered == writeOff == 0
      modifies store, store.port, store.port.mem
      ensures store.Valid() && store.ready && (err.None? ==> Owned() && Stored([]))
      ensures old(store.generation) < 0xFFFF_FFFF ==> Reaches(store.Sh(), old(store.Now()), run, store.Now())
      ensures old(store.port.failAfterPages) == 0 && dropped.None? && slot != old(store.activeSlot) ==> err.None?
    {
      ghost var sh, st := store.Sh(), store.Now();
      hide LayoutOk, DiskOf, RamOk, Reaches, Stored, SlotChanged;
      err, run := Evict(dropped);
      ghost var st1 := store.Now();
      if err.Some? {
        return err, run;
      }
      err := EraseSlot();
      if st.ram.gen < 0xFFFF_FFFF {
        WriteIsStep(sh, st, run, st1, store.Now(), slot);
        run := run + [Program(slot, store.Now().disk.slots[slot])];
      }
    }

    // An empty session satisfies what a session must.
    lemma Opens()
      requires store.Valid() && Owned() && slot < MAX_SLOTS && |name| == NAME_LEN && |hdr| == SYNM_HDR
      requires stream == [] && received == 0 && buffered == 0 && Stored([])
      ensures InSession()
    {
      assert hdr[..0] == [];
      hide Owned, Stored;
      Continues();
    }

    // Evict the slot's occupant before its flash is erased.
    method Evict(dropped: Option<Errno>) returns (err: Option<Errno>, ghost run: seq<Event>)
      requires store.Valid() && store.ready
      requires slot < store.lay.slotCount <= MAX_SLOTS && SYNM_HDR < totalSize <= store.lay.slotSize
      modifies store, store.port, store.port.mem
      ensures store.Valid() && store.ready && |store.occupied| == store.lay.slotCount as int
      ensures err.None? ==> Owned()
      ensures old(store.generation) < 0xFFFF_FFFF ==> Reaches(store.Sh(), old(store.Now()), run, store.Now())
      ensures old(store.port.failAfterPages) == 0 ==> store.port.failAfterPages == 0
      ensures old(store.port.failAfterPages) == 0 && dropped.None? && slot != old(store.activeSlot) ==> err.None?
    {
      run := [];
      ghost var sh, st := store.Sh(), store.Now();
      err := store.BeginStaging(slot, dropped);
      hide LayoutOk, DiskOf, Reaches, Outcome;
      if err.None? {
        FreedWhenStaged(sh, st, slot, dropped, store.Now());
      }
      if st.ram.gen < 0xFFFF_FFFF {
        run := StagingIsRun(sh, st, slot, dropped, store.Now(), err);
      }
    }

    ghost predicate BegunState(err: Option<Errno>)
      reads this
    {
      if err.None? then state == Downloading && stream == [] else state == Error && lastError == err
    }

    ghost predicate Begun(err: Option<Errno>, modelName: seq<u8>, total: u32)
      reads this
    {
      BegunState(err) && totalSize == total && name == NameField(modelName)
    }

    // ---- page-buffered programming ----

    // Program the first n bytes of the buffer at the write position.
    method ProgramBuffer(n: nat, ghost s: seq<u8>) returns (err: Option<Errno>)
      requires Ranged() && |s| <= Length() && writeOff + n <= Length() && 0 < n <= IO_BUF
      requires RangeHolds(store.port.mem[..], Start(), Length(), s, writeOff)
      requires pageBuf[..n] == Padded(s, Length())[writeOff..writeOff + n]
      requires Aligned(Start() + writeOff, n, store.port.g.page)
      modifies store.port, store.port.mem
      ensures SameOutside(old(store.port.mem[..]), store.port.mem[..], Start(), Length())
      ensures err.None? ==> RangeHolds(store.port.mem[..], Start(), Length(), s, writeOff + n)
      ensures old(store.port.failAfterPages) == 0 ==> err.None? && store.port.failAfterPages == 0
    {
      ghost var m := store.port.mem[..];
      ghost var off, len := Start(), Length();
      RangeIsSplice(m, off, len, s, writeOff);
      assert off + len <= |m|;
      hide RangeHolds, Splice, Partly, Padded, SameOutside, Aligned, Sound, EraseLen;
      err := WriteNext(store.port, m, store.lay.slotOff[slot], Padded(s, len), writeOff, pageBuf[..n]);
      SpliceIsRange(m, off, len, s, writeOff + n);
    }

    // Flush buffered bytes in page multiples; final pads the tail with 0xFF.
    method FlushPages(final: bool, ghost s: seq<u8>) returns (err: Option<Errno>)
      requires Ranged() && Stored(s) && (final || |s| >= IO_BUF)
      modifies this`buffered, this`writeOff, pageBuf, store.port, store.port.mem
      ensures Ranged() && SameOutside(old(store.port.mem[..]), store.port.mem[..], Start(), Length())
      ensures err.None? && final ==> |s| <= writeOff <= Length() && buffered == 0
      ensures err.None? && final ==> RangeHolds(store.port.mem[..], Start(), Length(), s, writeOff)
      ensures err.None? && !final ==> Stored(s) && buffered < store.port.g.page
      ensures old(store.port.failAfterPages) == 0 ==> err.None? && store.port.failAfterPages == 0
    {
      var page := store.port.g.page;
      ghost var len := Length();
      BufferPages(store.port.g, Start(), writeOff, len, buffered, final);
      var writable := Writable(buffered, page, final);
      hide Sound, EraseLen, OnPage, RoundUp, Writable, RangeHolds, SameOutside, Aligned;
      if writable == 0 {
        Unchanged(store.port.mem[..], Start(), len);
        return None;
      }
      err := ProgramPages(writable, s);
      if err.Some? {
        return err;
      }
      Advance(writable, s);
    }

    method ProgramPages(writable: nat, ghost s: seq<u8>) returns (err: Option<Errno>)
      requires Ranged() && 0 < writable <= IO_BUF && buffered <= IO_BUF
      requires writeOff + buffered == |s| <= Length() && pageBuf[..buffered] == s[writeOff..]
      requires writeOff + writable <= Length() && Aligned(Start() + writeOff, writable, store.port.g.page)
      requires RangeHolds(store.port.mem[..], Start(), Length(), s, writeOff)
      modifies pageBuf, store.port, store.port.mem
      ensures pageBuf[..buffered] == old(pageBuf[..buffered])
      ensures SameOutside(old(store.port.mem[..]), store.port.mem[..], Start(), Length())
      ensures err.None? ==> RangeHolds(store.port.mem[..], Start(), Length(), s, writeOff + writable)
      ensures old(store.port.failAfterPages) == 0 ==> err.None? && store.port.failAfterPages == 0
    {
      ghost var len := Length();
      hide Sound, EraseLen, RangeHolds, SameOutside, Aligned;
      ghost var was := pageBuf[..buffered];
      if writable > buffered {
        PadBuffer(writable);
      }
      assert pageBuf[..buffered] == was;
      BufferMatches(pageBuf[..writable], s, writeOff, buffered, writable, len);
      err := ProgramBuffer(writable, s);
    }

    // The first written bytes of the buffer are in flash now.
    method Advance(written: nat, ghost s: seq<u8>)
      requires pageBuf.Length == IO_BUF && buffered <= IO_BUF && written <= IO_BUF
      requires writeOff + buffered == |s| && pageBuf[..buffered] == s[writeOff..]
      modifies this`buffered, this`writeOff, pageBuf
      ensures writeOff == old(writeOff) + written
      ensures buffered == if written < old(buffered) then old(buffered) - written else 0
      ensures written <= old(buffered) ==> pageBuf[..buffered] == s[writeOff..]
    {
      ghost var buf := pageBuf[..buffered];
      writeOff := writeOff + written;
      var left := buffered - (if buffered < written then buffered else written);
      if left > 0 {
        assert pageBuf[written..written + left] == buf[written..];
        MoveDown(written, left);
      }
      buffered := left;
    }

    // memset of the tail of the last page
    method PadBuffer(to: nat)
      requires pageBuf.Length == IO_BUF && buffered <= to <= IO_BUF
      modifies pageBuf
      ensures pageBuf[..to] == old(pageBuf[..buffered]) + Erased(to - buffered)
    {
      forall i | buffered <= i < to {
        pageBuf[i] := BLANK;
      }
    }

    // memmove of what was not flushed to the front
    method MoveDown(from: nat, left: nat)
      requires pageBuf.Length == IO_BUF && from + left <= IO_BUF
      modifies pageBuf
      ensures pageBuf[..left] == old(pageBuf[from..from + left])
    {
      forall i | 0 <= i < left {
        pageBuf[i] := pageBuf[from + i];
      }
    }

    // Copy as many bytes as fit into the buffer, and flush it when it is full.
    method BufferSome(data: seq<u8>, pos: nat, ghost s: seq<u8>) returns (err: Option<Errno>, taken: nat)
      requires Ranged() && pos < |data| && Stored(s) && buffered < IO_BUF
      requires |s| + |data| - pos <= Length()
      modifies this`buffered, this`writeOff, pageBuf, store.port, store.port.mem
      ensures Ranged() && 0 < taken && pos + taken <= |data|
      ensures SameOutside(old(store.port.mem[..]), store.port.mem[..], Start(), Length())
      ensures err.None? ==> Stored(s + data[pos..pos + taken]) && buffered < IO_BUF
      ensures old(store.port.failAfterPages) == 0 ==> err.None? && store.port.failAfterPages == 0
    {
      var space := IO_BUF - buffered;
      taken := if space < |data| - pos then space else |data| - pos;
      ghost var more := data[pos..pos + taken];
      hide Sound, EraseLen, OnPage, RangeHolds;
      RangeGrows(store.port.mem[..], Start(), Length(), s, more, writeOff);
      CopyIn(data[pos..pos + taken]);
      assert (s + more)[writeOff..] == s[writeOff..] + more;
      assert Stored(s + more) && (buffered == IO_BUF ==> |s + more| >= IO_BUF);
      Unchanged(store.port.mem[..], Start(), Length());
      hide SameOutside, Stored;
      err := None;
      if buffered == IO_BUF {
        err := FlushPages(false, s + more);
      }
    }

    method CopyIn(src: seq<u8>)
      requires pageBuf.Length == IO_BUF && buffered + |src| <= IO_BUF
      modifies this`buffered, pageBuf
      ensures buffered == old(buffered) + |src| && pageBuf[..buffered] == old(pageBuf[..buffered]) + src
    {
      forall i | 0 <= i < |src| {
        pageBuf[buffered + i] := src[i];
      }
      buffered := buffered + |src|;
    }

    // Page-buffered programming of a chunk.
    method BufferAll(data: seq<u8>, ghost s: seq<u8>) returns (err: Option<Errno>)
      requires Ranged() && Stored(s) && buffered < IO_BUF && |s| + |data| <= Length()
      modifies this`buffered, this`writeOff, pageBuf, store.port, store.port.mem
      ensures Ranged() && SameOutside(old(store.port.mem[..]), store.port.mem[..], Start(), Length())
      ensures err.None? ==> Stored(s + data) && buffered < IO_BUF
      ensures old(store.port.failAfterPages) == 0 ==> err.None? && store.port.failAfterPages == 0
    {
      var pos: nat := 0;
      assert s + data[..0] == s;
      assert Start() + Length() <= |store.port.mem[..]|;
      Unchanged(store.port.mem[..], Start(), Length());
      ghost var m := store.port.mem[..];
      hide Ranged, Stored, SameOutside;
      err := None;
      while err.None? && pos < |data|
        invariant pos <= |data| && Ranged()
        invariant |m| == |store.port.mem[..]| && Start() + Length() <= |m|
        invariant SameOutside(m, store.port.mem[..], Start(), Length())
        invariant err.None? ==> Stored(s + data[..pos]) && buffered < IO_BUF
        invariant old(store.port.failAfterPages) == 0 ==> err.None? && store.port.failAfterPages == 0
        decreases |data| - pos
      {
        err, pos := BufferNext(data, pos, s, m);
      }
      assert data[..|data|] == data;
    }

    method BufferNext(data: seq<u8>, pos: nat, ghost s: seq<u8>, ghost m: seq<u8>)
      returns (err: Option<Errno>, next: nat)
      requires Ranged() && pos < |data| && |s| + |data| <= Length() && Stored(s + data[..pos]) && buffered < IO_BUF
      requires |m| == |store.port.mem[..]| && Start() + Length() <= |m|
      requires SameOutside(m, store.port.mem[..], Start(), Length())
      modifies this`buffered, this`writeOff, pageBuf, store.port, store.port.mem
      ensures Ranged() && pos < next <= |data|
      ensures SameOutside(m, store.port.mem[..], Start(), Length())
      ensures err.None? ==> Stored(s + data[..next]) && buffered < IO_BUF
      ensures old(store.port.failAfterPages) == 0 ==> err.None? && store.port.failAfterPages == 0
    {
      ghost var before := store.port.mem[..];
      hide Ranged, Stored, SameOutside;
      var taken;
      err, taken := BufferSome(data, pos, s + data[..pos]);
      SameOutsideCompose(m, before, store.port.mem[..], Start(), Length());
      assert (s + data[..pos]) + data[pos..pos + taken] == s + data[..pos + taken];
      next := pos + taken;
    }

    // Capture the header as it streams past, and check it when it is complete.
    method CaptureHeader(data: seq<u8>) returns (fault: Option<Errno>)
      requires |hdr| == SYNM_HDR && |name| == NAME_LEN && |data| > 0
      requires received as int == |stream| && HeaderKept() && |stream| + |data| <= totalSize && SYNM_HDR < totalSize
      modifies this`hdr
      ensures |hdr| == SYNM_HDR
      ensures KeptFor(stream + data)
      ensures var next := stream + data;
              fault == if |stream| < SYNM_HDR <= |next| then HeaderFault(next[..SYNM_HDR], totalSize, name) else None
    {
      hide HeaderFault;
      fault := None;
      ghost var next := stream + data;
      if received < SYNM_HDR {
        var need := SYNM_HDR - received;
        var take := if need < |data| then need else |data|;
        hdr := hdr[..received] + data[..take] + hdr[received + take..];
        if received as int + take == SYNM_HDR {
          assert hdr == next[..SYNM_HDR];
          fault := HeaderFault(hdr, totalSize, name);
        } else {
          assert hdr[..|next|] == next;
        }
      } else {
        assert next[..SYNM_HDR] == stream[..SYNM_HDR];
      }
    }

    lemma SessionRanged()
      requires Owned() && pageBuf != store.port.mem && pageBuf.Length == IO_BUF
      ensures Ranged() && Length() <= store.lay.slotSize && totalSize <= Length()
    {
      var g, lay := store.port.g, store.lay;
      LayoutCounts(g, lay);
      RegionFits(g, lay, store.port.mem[..], 2 + slot);
      hide RoundUp;
      EraseFits(g, lay.slotOff[slot], lay.slotSize, totalSize);
    }

    method WriteChunk(data: seq<u8>) returns (err: Option<Errno>)
      requires Valid() && received as int + |data| < 0x1_0000_0000
      modifies `state, `lastError, `hdr, `received, `stream, `buffered, `writeOff, pageBuf, store.port, store.port.mem
      ensures Valid()
      ensures |data| == 0 || old(state) != Downloading ==>
        unchanged(this) && unchanged(pageBuf) && unchanged(store.port) && unchanged(store.port.mem)
      ensures |data| == 0 ==> err == Some(EINVAL)
      ensures |data| > 0 && old(state) != Downloading ==> err == Some(EPERM)
      ensures |data| > 0 && old(state) == Downloading ==>
        Received(Fed(totalSize, name, Receiving(old(stream)), data), err)
      ensures var next := Fed(old(totalSize), old(name), Receiving(old(stream)), data);
              old(state) == Downloading && next.Stopped? ==>
                unchanged(pageBuf) && unchanged(store.port) && unchanged(store.port.mem)
      ensures var next := Fed(old(totalSize), old(name), Receiving(old(stream)), data);
              |data| > 0 && old(state) == Downloading && next.Receiving? && old(store.port.failAfterPages) == 0 ==>
                err.None? && store.port.failAfterPages == 0
      ensures old(state) == Downloading ==> SlotChanged(old(store.Now().disk), store.Now().disk, slot)
    {
      if |data| == 0 {
        if state == Downloading {
          SameSlots(store.Now().disk, slot);
        }
        return Some(EINVAL);
      }
      if state != Downloading {
        return Some(EPERM);
      }
      err := Accept(data);
    }

    method Accept(data: seq<u8>) returns (err: Option<Errno>)
      requires Valid() && state == Downloading && |data| > 0 && received as int + |data| < 0x1_0000_0000
      modifies `state, `lastError, `hdr, `received, `stream, `buffered, `writeOff, pageBuf, store.port, store.port.mem
      ensures Valid()
      ensures Received(Fed(totalSize, name, Receiving(old(stream)), data), err)
      ensures Fed(totalSize, name, Receiving(old(stream)), data).Stopped? ==>
        unchanged(pageBuf) && unchanged(store.port) && unchanged(store.port.mem)
      ensures old(store.port.failAfterPages) == 0 && Fed(totalSize, name, Receiving(old(stream)), data).Receiving? ==>
        err.None? && store.port.failAfterPages == 0
      ensures SlotChanged(old(store.Now().disk), store.Now().disk, slot)
    {
      hide Fed, SlotChanged, LayoutOk, Owned, RamOk, KeptFor, HeaderPassed, Stored;
      err := Take(data);
      if err.Some? {
        err := EnterError(err.value);
      } else {
        Grow(data);
        Continues();
      }
    }

    method Take(data: seq<u8>) returns (err: Option<Errno>)
      requires Valid() && InSession() && |data| > 0
      modifies `hdr, `buffered, `writeOff, pageBuf, store.port, store.port.mem
      ensures |hdr| == SYNM_HDR && pageBuf.Length == IO_BUF
      ensures match Fed(totalSize, name, Receiving(stream), data)
              case Stopped(e) => err == Some(e) && unchanged(pageBuf) &&
                                 unchanged(store.port) && unchanged(store.port.mem)
              case Receiving(s) => s == stream + data && |s| <= totalSize
      ensures Fed(totalSize, name, Receiving(stream), data).Receiving? && old(store.port.failAfterPages) == 0 ==>
        err.None? && store.port.failAfterPages == 0
      ensures err.None? ==> KeptFor(stream + data) && HeaderPassed(stream + data, totalSize, name)
      ensures err.None? ==> Owned() && slot < MAX_SLOTS && Stored(stream + data) && buffered < IO_BUF
      ensures SlotChanged(old(store.Now().disk), store.Now().disk, slot)
    {
      SameSlots(store.Now().disk, slot);
      hide HeaderPassed, Stored, LayoutOk, SlotChanged, DiskOf, Sound, KeptFor, Fed, RamOk;
      err := Check(data);
      if err.None? {
        err := ProgramChunk(data);
      }
    }

    // Until the header is complete the session's range is as it was erased.
    lemma ErasedUntilHeader()
      requires Valid() && state == Downloading && |stream| < SYNM_HDR
      ensures HoldsStream(store.Now().disk, slot, Erased(Length()))
    {
      var m, len := store.port.mem[..], Length();
      SessionRanged();
      assert writeOff == 0 && RangeHolds(m, Start(), len, stream, 0) && Placed(store.port.g, store.lay, m);
      NoneWritten(Padded(stream, len));
      hide LayoutOk, DiskOf, EraseLen, Padded, Partly, Erased, Sound, HoldsStream;
      SlotReads(store.port.g, store.lay, m, slot, Erased(len));
    }

    lemma SessionFacts()
      requires Valid() && state == Downloading
      ensures received as int == |stream| <= totalSize && SYNM_HDR < totalSize && HeaderPassed(stream, totalSize, name)
      ensures store.ready && store.Valid() && Sound(store.port.g)
    {
    }

    lemma Continues()
      requires store.Valid() && Owned() && slot < MAX_SLOTS && |name| == NAME_LEN
      requires received as int == |stream| <= totalSize
      requires HeaderPassed(stream, totalSize, name) && KeptFor(stream) && Stored(stream) && buffered < IO_BUF
      ensures InSession()
    {
      hide Stored, Owned, KeptFor, HeaderPassed;
    }

    // The size and header checks that come before anything is programmed.
    method Check(data: seq<u8>) returns (fault: Option<Errno>)
      requires |hdr| == SYNM_HDR && |name| == NAME_LEN && |data| > 0 && SYNM_HDR < totalSize
      requires received as int == |stream| <= totalSize && HeaderKept() && HeaderPassed(stream, totalSize, name)
      modifies this`hdr
      ensures |hdr| == SYNM_HDR
      ensures Fed(totalSize, name, Receiving(stream), data) ==
              if fault.Some? then Stopped(fault.value) else Receiving(stream + data)
      ensures fault.None? ==> |stream| + |data| <= totalSize && HeaderPassed(stream + data, totalSize, name)
      ensures fault.None? ==> KeptFor(stream + data)
    {
      if received as int + |data| > totalSize {
        return Some(EFBIG);
      }
      hide HeaderFault;
      fault := CaptureHeader(data);
      FedIsVerdict(totalSize, name, stream, data);
    }

    ghost predicate KeptFor(s: seq<u8>)
      reads this`hdr
    {
      |hdr| == SYNM_HDR && if |s| < SYNM_HDR then hdr[..|s|] == s else hdr == s[..SYNM_HDR]
    }

    method Grow(data: seq<u8>)
      requires received as int + |data| < 0x1_0000_0000
      modifies this`received, this`stream
      ensures received as int == old(received) as int + |data| && stream == old(stream) + data
    {
      received := received + |data|;
      stream := stream + data;
    }

    method ProgramChunk(data: seq<u8>) returns (err: Option<Errno>)
      requires Owned() && pageBuf.Length == IO_BUF && pageBuf != store.port.mem && slot < MAX_SLOTS
      requires Stored(stream) && buffered < IO_BUF && |stream| + |data| <= totalSize
      modifies this`buffered, this`writeOff, pageBuf, store.port, store.port.mem
      ensures SlotChanged(old(store.Now().disk), store.Now().disk, slot)
      ensures err.None? ==> Stored(stream + data) && buffered < IO_BUF
      ensures old(store.port.failAfterPages) == 0 ==> err.None? && store.port.failAfterPages == 0
    {
      ghost var m := store.port.mem[..];
      SessionRanged();
      ghost var len := Length();
      assert store.lay.slotOff[slot] as int + len <= |m| && Placed(store.port.g, store.lay, m);
      hide Ranged, Stored, LayoutOk, SlotChanged, DiskOf, EraseLen, Sound, SameOutside, Placed;
      err := BufferAll(data, stream);
      InsideSlot(store.port.g, store.lay, m, store.port.mem[..], slot, len);
    }

    // The session after a chunk: stopped as the machine says, or grown, or failed in flash.
    ghost predicate Received(next: Progress, err: Option<Errno>)
      reads this
    {
      match next
      case Stopped(e) => err == Some(e) && state == Error && lastError == err
      case Receiving(s) => if err.None? then state == Downloading && stream == s else state == Error && lastError == err
    }

    // ---- finish ----

    // Flush the tail; the erased range then holds the stream and nothing else.
    method LandTail() returns (err: Option<Errno>)
      requires Owned() && pageBuf.Length == IO_BUF && pageBuf != store.port.mem && slot < MAX_SLOTS
      requires Stored(stream) && |stream| == totalSize
      modifies this`buffered, this`writeOff, pageBuf, store.port, store.port.mem
      ensures SlotChanged(old(store.Now().disk), store.Now().disk, slot)
      ensures err.None? ==> InPlace(store.port.mem[..], store.lay.slotOff[slot], stream)
      ensures err.None? ==> HoldsStream(store.Now().disk, slot, Padded(stream, Length()))
      ensures old(store.port.failAfterPages) == 0 ==> err.None? && store.port.failAfterPages == 0
    {
      ghost var m := store.port.mem[..];
      SessionRanged();
      ghost var len := Length();
      ghost var off: nat := store.lay.slotOff[slot];
      assert off == Start() && off + len <= |m| && Placed(store.port.g, store.lay, m);
      hide Ranged, Stored, LayoutOk, SlotChanged, DiskOf, EraseLen, Sound, SameOutside, Placed, RangeHolds,
           HoldsStream, InPlace, Padded;
      err := FlushPages(true, stream);
      InsideSlot(store.port.g, store.lay, m, store.port.mem[..], slot, len);
      if err.None? {
        StreamLanded(store.port.g, store.lay, store.port.mem[..], slot, len, stream, writeOff);
      }
    }

    // CRC-32 of the payload as it landed in flash, against the header.
    method CheckPayload() returns (err: Option<Errno>)
      requires Owned() && slot < MAX_SLOTS && |hdr| == SYNM_HDR && |stream| == totalSize
      requires ModelSize(hdr) == totalSize - SYNM_HDR && InPlace(store.port.mem[..], store.lay.slotOff[slot], stream)
      ensures err == if Crc(stream[SYNM_HDR..]) == HeaderCrc(hdr) then None else Some(EILSEQ)
    {
      var off: nat := store.lay.slotOff[slot];
      assert off + totalSize as int <= store.port.g.size;
      PayloadCrc(store.port.mem[..], off, stream);
      assert store.port.Valid();
      hide *;
      var found := FlashCrc(store.port, off + SYNM_HDR, ModelSize(hdr), 128);
      assert found.Ok? && found.value as int == Crc(stream[SYNM_HDR..]);
      match found {
        case Err(e) =>
          return Some(e);
        case Ok(crc) =>
          return if crc as int != HeaderCrc(hdr) then Some(EILSEQ) else None;
      }
    }

    // Check everything that arrived and stage its record, so that it survives power loss.
    method Finish() returns (err: Option<Errno>, ghost run: seq<Event>)
      requires Valid()
      modifies this`state, this`lastError, this`buffered, this`writeOff, pageBuf, store, store.port, store.port.mem
      ensures Valid() && (old(state) == Downloading ==> store.ready)
      ensures old(state) != Downloading ==> err == Some(EPERM) && unchanged(this)
      ensures old(state) == Downloading ==> Ended(err)
      ensures old(state) == Downloading && old(received) != old(totalSize) ==> err == Some(ENODATA)
      ensures old(state) != Downloading || old(received) != old(totalSize) ==>
        unchanged(store) && unchanged(store.port) && unchanged(store.port.mem)
      ensures old(state) == Downloading && old(received) == old(totalSize) && old(store.port.failAfterPages) == 0 ==>
        err == if PayloadMatches(stream) then None else Some(EILSEQ)
      // The erased range holds the stream and padding, also when its checksum is wrong.
      ensures old(state) == Downloading && received == totalSize &&
              (err.None? || old(store.port.failAfterPages) == 0) ==>
        |stream| <= Length() && HoldsStream(store.Now().disk, slot, Padded(stream, Length()))
      ensures old(state) == Downloading && err.None? ==>
        StagedNow(old(store.Now()), store.Now(), stream, name, slot, store.lay)
      ensures old(state) == Downloading && old(store.generation) < 0xFFFF_FFFF ==>
        Reaches(store.Sh(), old(store.Now()), run, store.Now())
    {
      run := [];
      if state != Downloading {
        return Some(EPERM), run;
      }
      if received != totalSize {
        err := EnterError(ENODATA);
        return err, run;
      }
      err, run := FinishWhole();
    }

    method FinishWhole() returns (err: Option<Errno>, ghost run: seq<Event>)
      requires Valid() && state == Downloading && received == totalSize
      modifies this`state, this`lastError, this`buffered, this`writeOff, pageBuf, store, store.port, store.port.mem
      ensures Valid() && store.ready && Ended(err) && |stream| <= Length()
      ensures old(store.port.failAfterPages) == 0 ==> err == if PayloadMatches(stream) then None else Some(EILSEQ)
      ensures err.None? || old(store.port.failAfterPages) == 0 ==>
        HoldsStream(store.Now().disk, slot, Padded(stream, Length()))
      ensures err.None? ==> StagedNow(old(store.Now()), store.Now(), stream, name, slot, store.lay)
      ensures old(store.generation) < 0xFFFF_FFFF ==> Reaches(store.Sh(), old(store.Now()), run, store.Now())
    {
      ghost var sh, st := store.Sh(), store.Now();
      HeaderMatches(stream, totalSize, name, hdr);
      hide LayoutOk, DiskOf, Crc, HeaderCrc, ModelSize, HeaderPassed, StagedRecord, Stored, SlotChanged, HoldsStream,
           Outcome, Reaches, PayloadMatches, StagedNow, Padded, EraseLen;
      hide OtaEngine.InSession;
      err := Validate();
      RestIsValid();
      ghost var st1 := store.Now();
      run := [Program(slot, st1.disk.slots[slot])];
      FirstWrite(sh, st, st1, slot);
      if err.Some? {
        return err, run;
      }
      ghost var e;
      err, e := StageChecked(st, run);
      RestIsValid();
      run := run + [e];
    }

    // Stage the update that was found in flash; run led there.
    method StageChecked(ghost st: State, ghost run: seq<Event>) returns (err: Option<Errno>, ghost e: Event)
      requires AtRest() && Owned() && state == Validating && slot < MAX_SLOTS
      requires |stream| == totalSize as int >= SYNM_HDR
      requires hdr == stream[..SYNM_HDR] && PayloadMatches(stream) && ModelSize(hdr) == totalSize - SYNM_HDR
      requires |stream| <= Length() && HoldsStream(store.Now().disk, slot, Padded(stream, Length()))
      requires StateOk(store.Sh(), st) && st.On? && store.Now().ram == st.ram
      requires Reaches(store.Sh(), st, run, store.Now())
      modifies this`state, this`lastError, store, store.port, store.port.mem
      ensures AtRest() && store.ready && Ended(err)
      ensures old(store.port.failAfterPages) == 0 ==> err.None?
      ensures HoldsStream(store.Now().disk, slot, Padded(stream, Length()))
      ensures err.None? ==> StagedNow(st, store.Now(), stream, name, slot, store.lay)
      ensures st.ram.gen < 0xFFFF_FFFF ==> Reaches(store.Sh(), st, run + [e], store.Now())
    {
      ghost var sh, st1 := store.Sh(), store.Now();
      PaddedHolds(st1.disk, slot, stream, Length());
      hide LayoutOk, DiskOf, Crc, HeaderCrc, ModelSize, HeaderPassed, StagedRecord, Stored, SlotChanged, Outcome,
           Reaches, PayloadMatches, StagedNow, Padded, EraseLen, RamOk;
      err := StageRecord();
      e := FinishSteps(sh, st, run, st1, slot, stream, name, store.lay, store.Now(), err);
      OutcomeKeepsSlots(sh, st1, Do(Stage(slot, StagedRecord(hdr, name, store.lay.slotOff[slot]))), store.Now(), err);
    }

    lemma StreamFits()
      requires Valid() && state == Downloading
      ensures |stream| == received as int <= totalSize as int <= Length()
      ensures Owned() && slot < MAX_SLOTS && Stored(stream)
    {
      hide Stored, Owned;
    }

    method Validate() returns (err: Option<Errno>)
      requires Valid() && state == Downloading && received == totalSize && ModelSize(hdr) == totalSize - SYNM_HDR
      modifies this`buffered, this`writeOff, this`state, this`lastError, pageBuf, store.port, store.port.mem
      ensures AtRest() && Owned() && SlotChanged(old(store.Now().disk), store.Now().disk, slot)
      ensures if err.None? then state == Validating else Ended(err)
      ensures |stream| <= Length()
      ensures err.None? || old(store.port.failAfterPages) == 0 ==>
        HoldsStream(store.Now().disk, slot, Padded(stream, Length()))
      ensures err.None? ==> Crc(stream[SYNM_HDR..]) == HeaderCrc(hdr)
      ensures old(store.port.failAfterPages) == 0 ==> store.port.failAfterPages == 0
      ensures old(store.port.failAfterPages) == 0 ==>
        err == if Crc(stream[SYNM_HDR..]) == HeaderCrc(hdr) then None else Some(EILSEQ)
    {
      hide LayoutOk, DiskOf, Crc, HeaderCrc, ModelSize, HeaderPassed, Stored, SlotChanged, HoldsStream, InPlace,
           Padded, EraseLen, OtaEngine.InSession, RamOk;
      StreamFits();
      assert store.Valid() && store.ready;
      hide OtaEngine.Owned;
      err := LandTail();
      if err.Some? {
        err := EnterError(err.value);
        return err;
      }
      err := CheckLanded();
    }

    method CheckLanded() returns (err: Option<Errno>)
      requires Owned() && slot < MAX_SLOTS && |hdr| == SYNM_HDR && |stream| == totalSize
      requires ModelSize(hdr) == totalSize - SYNM_HDR && InPlace(store.port.mem[..], store.lay.slotOff[slot], stream)
      modifies this`state, this`lastError
      ensures if err.None? then state == Validating else Ended(err)
      ensures err == if Crc(stream[SYNM_HDR..]) == HeaderCrc(hdr) then None else Some(EILSEQ)
    {
      hide Owned, InPlace, Crc, HeaderCrc, ModelSize;
      state := Validating;
      err := CheckPayload();
      if err.Some? {
        err := EnterError(err.value);
      }
    }

    // Commit the record of the checked update.
    method StageRecord() returns (err: Option<Errno>)
      requires AtRest() && Owned() && state == Validating && slot < MAX_SLOTS
      modifies this`state, this`lastError, store, store.port, store.port.mem
      ensures AtRest() && store.ready && Ended(err)
      ensures old(store.port.failAfterPages) == 0 ==> err.None?
      ensures var r := StagedRecord(hdr, name, store.lay.slotOff[slot]);
              Outcome(store.Sh(), old(store.Now()), Do(Stage(slot, r)), store.Now(), err)
    {
      state := Staging;
      hide LayoutOk, DiskOf, StagedRecord, Outcome, RamOk, OtaEngine.Owned;
      err := CommitRecord(StagedRecord(hdr, name, store.lay.slotOff[slot]));
      if err.Some? {
        err := EnterError(err.value);
        return err;
      }
      state := Ready;
    }

    method CommitRecord(r: Record) returns (err: Option<Errno>)
      requires Owned()
      modifies store, store.port, store.port.mem
      ensures store.Valid() && store.ready
      ensures old(store.port.failAfterPages) == 0 ==> err.None?
      ensures Outcome(store.Sh(), old(store.Now()), Do(Stage(slot, r)), store.Now(), err)
    {
      assert OnMarkStaged(store.Reg(), slot, r) == Do(Stage(slot, r));
      hide LayoutOk, DiskOf, Outcome, RamOk, Means, ModelStore.Reg, OnMarkStaged;
      err := store.MarkStaged(slot, r);
    }

    ghost predicate Ended(err: Option<Errno>)
      reads this
    {
      state == (if err.None? then Ready else Error) && (err.Some? ==> lastError == err)
    }

    // ---- activate and roll back ----

    // The slot activate would make active: the staged update, also one staged before a
    // power loss.
    function Target(): Option<u8>
      reads this`state, this`slot, store
    {
      if state == Ready then Some(slot)
      else if state == Idle && store.ready && store.stagedSlot != NONE then Some(store.stagedSlot)
      else None
    }

    method Activate(held: bool) returns (err: Option<Errno>)
      requires Valid()
      modifies this`state, this`lastError, store, store.port, store.port.mem
      ensures Valid() && store.ready == old(store.ready)
      ensures old(Target()).None? ==>
        err == Some(EPERM) && unchanged(this) && unchanged(store) && unchanged(store.port) && unchanged(store.port.mem)
      ensures old(Target()).Some? ==> state == (if err.None? then Idle else Error) && (err.Some? ==> lastError == err)
      ensures old(Target()).Some? && store.ready ==>
        Outcome(store.Sh(), old(store.Now()), OnActivate(old(store.Reg()), old(Target()).value, held), store.Now(), err)
      ensures if old(Target()).Some? && err.None?
              then Means(Op.Activate(old(Target()).value), old(store.Reg()), store.Reg())
              else store.Reg() == old(store.Reg())
    {
      RestIsValid();
      hide OtaEngine.InSession, AtRest, Outcome, RamOk, LayoutOk, DiskOf, OnActivate, Means;
      var s := slot;
      if state != Ready {
        s := if store.ready then store.stagedSlot else NONE;
        if state != Idle || s == NONE {
          return Some(EPERM);
        }
      }
      err := ActivateSlot(s, held);
      RestIsValid();
    }

    // No session is running.
    ghost predicate AtRest()
      reads this, store
    {
      && store.Valid() && pageBuf.Length == IO_BUF && pageBuf != store.port.mem
      && |hdr| == SYNM_HDR && |name| == NAME_LEN && state != Downloading
    }

    lemma RestIsValid()
      ensures AtRest() ==> Valid()
      ensures Valid() && state != Downloading ==> AtRest()
    {
      hide InSession;
    }

    method ActivateSlot(s: u8, held: bool) returns (err: Option<Errno>)
      requires AtRest()
      modifies this`state, this`lastError, store, store.port, store.port.mem
      ensures AtRest() && store.ready == old(store.ready)
      ensures state == (if err.None? then Idle else Error) && (err.Some? ==> lastError == err)
      ensures store.ready ==>
        Outcome(store.Sh(), old(store.Now()), OnActivate(old(store.Reg()), s, held), store.Now(), err)
      ensures if err.None? then Means(Op.Activate(s), old(store.Reg()), store.Reg())
              else store.Reg() == old(store.Reg())
    {
      hide Outcome, RamOk, LayoutOk, DiskOf, OnActivate, Means;
      err := store.Activate(s, held);
      if err.Some? {
        err := EnterError(err.value);
        return err;
      }
      state := Idle;
    }

    method Rollback(held: bool) returns (err: Option<Errno>)
      requires Valid()
      modifies this`state, store, store.port, store.port.mem
      ensures Valid() && store.ready == old(store.ready)
      ensures old(state) in {Downloading, Validating, Staging} ==> err == Some(EBUSY)
      ensures old(state) in {Downloading, Validating, Staging} ==>
        unchanged(store) && unchanged(store.port) && unchanged(store.port.mem)
      ensures state == if err.None? then Idle else old(state)
      ensures old(state) !in {Downloading, Validating, Staging} && store.ready ==> |old(store.occupied)| <= MAX_SLOTS
      ensures old(state) !in {Downloading, Validating, Staging} && store.ready ==>
        Outcome(store.Sh(), old(store.Now()), OnRollback(old(store.Reg()), held), store.Now(), err)
      ensures if err.None? then Means(Op.Rollback, old(store.Reg()), store.Reg())
              else store.Reg() == old(store.Reg())
    {
      if state == Downloading || state == Validating || state == Staging {
        return Some(EBUSY);
      }
      RestIsValid();
      hide OtaEngine.InSession, AtRest, Outcome, RamOk, LayoutOk, DiskOf, OnRollback, Means;
      err := RollbackAtRest(held);
      RestIsValid();
    }

    method RollbackAtRest(held: bool) returns (err: Option<Errno>)
      requires AtRest()
      modifies this`state, store, store.port, store.port.mem
      ensures AtRest() && store.ready == old(store.ready)
      ensures state == if err.None? then Idle else old(state)
      ensures store.ready ==> |old(store.occupied)| <= MAX_SLOTS
      ensures store.ready ==>
        Outcome(store.Sh(), old(store.Now()), OnRollback(old(store.Reg()), held), store.Now(), err)
      ensures if err.None? then Means(Op.Rollback, old(store.Reg()), store.Reg())
              else store.Reg() == old(store.Reg())
    {
      hide Outcome, RamOk, LayoutOk, DiskOf, OnRollback, Means;
      err := store.Rollback(held);
      if err.Some? {
        return err;
      }
      state := Idle;
    }

    // The session's range lies in the window.
    ghost predicate Ranged()
      reads this`slot, this`totalSize, store
    {
      && store.Valid() && store.ready && Sound(store.port.g) && Shaped(store.lay)
      && slot < store.lay.slotCount <= MAX_SLOTS && pageBuf != store.port.mem && pageBuf.Length == IO_BUF
      && 0 < store.port.g.page <= IO_BUF && IO_BUF % store.port.g.page == 0
      && Start() + Length() <= store.port.g.size
    }
  }

  function Writable(buffered: nat, page: nat, final: bool): nat
    requires page > 0
  {
    if final then RoundUp(buffered, page) else buffered / page * page
  }

  lemma FloorPages(b: nat, page: nat)
    requires page > 0
    ensures b / page * page <= b < b / page * page + page && b / page * page % page == 0
  {
    MulMod(b / page, page);
    assert b == b / page * page + b % page;
  }

  lemma BufferPages(g: Geometry, off: nat, w: nat, len: nat, buffered: nat, final: bool)
    requires Sound(g) && IO_BUF % g.page == 0 && OnPage(g, off, w, len) && w + buffered <= len && buffered <= IO_BUF
    ensures var n := Writable(buffered, g.page, final);
            && n <= IO_BUF && w + n <= len && OnPage(g, off, w + n, len) && Aligned(off + w, n, g.page)
            && (final ==> buffered <= n) && (!final ==> n <= buffered < n + g.page)
            && (n == 0 ==> (final ==> buffered == 0) && (!final ==> buffered < g.page))
  {
    var n := Writable(buffered, g.page, final);
    if final {
      RoundUpLeast(buffered, g.page, IO_BUF);
      ModDiff(len, w, g.page);
      RoundUpLeast(buffered, g.page, len - w);
    } else {
      FloorPages(buffered, g.page);
    }
    hide RoundUp;
    assert n % g.page == 0;
    hide Writable;
    ModSum(w, n, g.page);
    ModSum(off, w, g.page);
  }

  lemma Unchanged(m: seq<u8>, off: nat, len: nat)
    requires off + len <= |m|
    ensures SameOutside(m, m, off, len)
  {
  }

  // The flushed bytes are the next bytes of the padded stream.
  lemma BufferMatches(buf: seq<u8>, s: seq<u8>, w: nat, buffered: nat, n: nat, len: nat)
    requires |buf| == n && w + buffered == |s| <= len && w + n <= len
    requires if n <= buffered then buf == s[w..w + n] else buf == s[w..] + Erased(n - buffered)
    ensures buf == Padded(s, len)[w..w + n]
  {
  }

  lemma SameSlots(d: Disk, slot: nat)
    requires slot < |d.slots|
    ensures SlotChanged(d, d, slot)
  {
    assert d.slots[slot := d.slots[slot]] == d.slots;
  }

  lemma InsideSlot(g: Geometry, lay: Layout, m: seq<u8>, n: seq<u8>, slot: nat, len: nat)
    requires Placed(g, lay, m) && slot < lay.slotCount && len <= lay.slotSize
    requires lay.slotOff[slot] as int + len <= |m| && SameOutside(m, n, lay.slotOff[slot], len)
    ensures Placed(g, lay, n) && SlotChanged(DiskOf(g, lay, m), DiskOf(g, lay, n), slot)
  {
    var off := lay.slotOff[slot];
    RegionFits(g, lay, m, 2 + slot);
    assert RegionOff(lay, 2 + slot) == off && RegionSize(lay, 2 + slot) == lay.slotSize;
    hide LayoutOk, DiskOf, RegionAt;
    Narrower(m, n, off, len, lay.slotSize);
    RegionChanged(g, lay, m, n, 2 + slot);
  }

  ghost predicate HoldsStream(d: Disk, slot: nat, s: seq<u8>) {
    slot < |d.slots| && |s| <= |d.slots[slot]| && d.slots[slot][..|s|] == s
  }

  // The update is in the slot, its record in the registry and staged; nothing else changed.
  ghost predicate StagedNow(before: State, after: State, s: seq<u8>, name: seq<u8>, slot: u8, lay: Layout) {
    && before.On? && after.On? && |s| >= SYNM_HDR && |name| == NAME_LEN && Shaped(lay) && slot < MAX_SLOTS
    && slot < |before.ram.reg.occupied| == |before.ram.reg.recs|
    && HoldsStream(after.disk, slot, s)
    && after.ram.reg == Staged(before.ram.reg, slot, StagedRecord(s[..SYNM_HDR], name, lay.slotOff[slot]))
  }

  ghost predicate PayloadMatches(s: seq<u8>) {
    |s| >= SYNM_HDR && Crc(s[SYNM_HDR..]) == HeaderCrc(s[..SYNM_HDR])
  }

  lemma HeaderMatches(s: seq<u8>, total: nat, name: seq<u8>, hdr: seq<u8>)
    requires |name| == NAME_LEN && SYNM_HDR < total == |s| && HeaderPassed(s, total, name) && hdr == s[..SYNM_HDR]
    ensures ModelSize(hdr) == total - SYNM_HDR
    ensures PayloadMatches(s) <==> Crc(s[SYNM_HDR..]) == HeaderCrc(hdr)
  {
    hide Crc, Rd32, StrnSame;
  }

  ghost predicate InPlace(m: seq<u8>, off: nat, s: seq<u8>) {
    off + |s| <= |m| && m[off..off + |s|] == s
  }

  lemma StreamLanded(g: Geometry, lay: Layout, m: seq<u8>, slot: nat, len: nat, s: seq<u8>, w: nat)
    requires Placed(g, lay, m) && slot < lay.slotCount && len <= lay.slotSize
    requires RangeHolds(m, lay.slotOff[slot], len, s, w) && |s| <= w
    ensures HoldsStream(DiskOf(g, lay, m), slot, Padded(s, len)) && InPlace(m, lay.slotOff[slot], s)
  {
    RangeReads(m, lay.slotOff[slot], len, s, w);
    AllWritten(s, len, w);
    hide Partly, Padded;
    SlotReads(g, lay, m, slot, Padded(s, len));
  }

  lemma PaddedHolds(d: Disk, slot: nat, s: seq<u8>, len: nat)
    requires |s| <= len && HoldsStream(d, slot, Padded(s, len))
    ensures HoldsStream(d, slot, s)
  {
    assert Padded(s, len)[..|s|] == s;
    assert d.slots[slot][..len][..|s|] == d.slots[slot][..|s|];
  }

  lemma PayloadCrc(m: seq<u8>, off: nat, s: seq<u8>)
    requires InPlace(m, off, s) && SYNM_HDR <= |s|
    ensures CrcUpTo(m, off + SYNM_HDR, |s| - SYNM_HDR) as int == Crc(s[SYNM_HDR..])
  {
    hide Crc, CrcUpTo;
    SliceOfSlice(m, off, off + |s|, SYNM_HDR, |s|);
    CrcIsWhole(m, off + SYNM_HDR, s[SYNM_HDR..]);
  }

  lemma StagedPayloadOk(d: Disk, slot: u8, s: seq<u8>, name: seq<u8>, off: u32)
    requires HoldsStream(d, slot, s) && PayloadMatches(s) && |name| == NAME_LEN && slot < |d.slots|
    requires ModelSize(s[..SYNM_HDR]) as int == |s| - SYNM_HDR
    ensures PayloadOk(d.slots[slot], StagedRecord(s[..SYNM_HDR], name, off))
  {
    StagedReads(s[..SYNM_HDR], name, off);
    hide StagedRecord, ModelSize, HeaderCrc, FlashSize, RecordCrc, Crc;
    SliceOfSlice(d.slots[slot], 0, |s|, SYNM_HDR, |s|);
    assert d.slots[slot][..|s|] == d.slots[slot][0..|s|];
    assert s[SYNM_HDR..|s|] == s[SYNM_HDR..];
  }

  lemma OutcomeKeepsSlots(sh: Shape, st: State, dec: Decision, after: State, err: Option<Errno>)
    requires Outcome(sh, st, dec, after, err)
    ensures after.disk.slots == st.disk.slots
  {
    hide Region, Fits, Apply;
  }

  lemma FirstWrite(sh: Shape, st: State, st1: State, slot: u8)
    requires StateOk(sh, st) && st.On? && slot < sh.slots && !st.ram.reg.occupied[slot]
    requires DiskOk(sh, st1.disk) && SlotChanged(st.disk, st1.disk, slot) && st1 == On(st1.disk, st.ram)
    ensures Reaches(sh, st, [Program(slot, st1.disk.slots[slot])], st1)
  {
    WriteIsStep(sh, st, [], st, st1, slot);
    hide Reaches;
    assert [] + [Program(slot, st1.disk.slots[slot])] == [Program(slot, st1.disk.slots[slot])];
  }

  // The steps of the machine in a finish that gets to its commit.
  ghost function FinishSteps(sh: Shape, st: State, run: seq<Event>, st1: State, slot: u8, s: seq<u8>, name: seq<u8>,
                             lay: Layout, after: State, err: Option<Errno>): (e: Event)
    requires StateOk(sh, st) && st.On? && st1 == On(st1.disk, st.ram) && Reaches(sh, st, run, st1) && slot < sh.slots
    requires Shaped(lay) && !st.ram.reg.occupied[slot] && slot != st.ram.reg.active
    requires HoldsStream(st1.disk, slot, s) && PayloadMatches(s) && |name| == NAME_LEN
    requires ModelSize(s[..SYNM_HDR]) as int == |s| - SYNM_HDR
    requires Outcome(sh, st1, Do(Stage(slot, StagedRecord(s[..SYNM_HDR], name, lay.slotOff[slot]))), after, err)
    ensures st.ram.gen < 0xFFFF_FFFF ==> Reaches(sh, st, run + [e], after)
    ensures err.None? ==> StagedNow(st, after, s, name, slot, lay)
  {
    var r := StagedRecord(s[..SYNM_HDR], name, lay.slotOff[slot]);
    hide StagedRecord, ModelSize, Reaches, StagedNow;
    StagedPayloadOk(st1.disk, slot, s, name, lay.slotOff[slot]);
    StagedWhenDone(sh, st, st1, slot, s, name, lay, after, err);
    hide PayloadMatches, HoldsStream;
    if st.ram.gen < 0xFFFF_FFFF then
      StageIsStep(sh, st, run, st1, slot, r, after, err);
      AttemptEvent(st1.ram, Stage(slot, r), after, err)
    else Cut
  }

  lemma StageIsStep(sh: Shape, st: State, run: seq<Event>, st1: State, slot: u8, r: Record, after: State,
                    err: Option<Errno>)
    requires StateOk(sh, st) && Reaches(sh, st, run, st1) && st1.On? && st1.ram.gen < 0xFFFF_FFFF
    requires slot < sh.slots && !st1.ram.reg.occupied[slot] && slot != st1.ram.reg.active
    requires PayloadOk(st1.disk.slots[slot], r)
    requires Outcome(sh, st1, Do(Stage(slot, r)), after, err)
    ensures StateOk(sh, after) && after.On?
    ensures Reaches(sh, st, run + [AttemptEvent(st1.ram, Stage(slot, r), after, err)], after)
  {
    var op := Stage(slot, r);
    assert Commits(sh, st1, op);
    AttemptIsStep(sh, st1, op, after, err);
    hide Reaches, Attempted, AttemptEvent;
    OneMore(sh, st, run, st1, AttemptEvent(st1.ram, op, after, err));
  }

  lemma StagedWhenDone(sh: Shape, st: State, st1: State, slot: u8, s: seq<u8>, name: seq<u8>, lay: Layout, after: State,
                       err: Option<Errno>)
    requires StateOk(sh, st) && st.On? && st1 == On(st1.disk, st.ram) && slot < sh.slots && Shaped(lay)
    requires |s| >= SYNM_HDR && |name| == NAME_LEN && HoldsStream(st1.disk, slot, s)
    requires Outcome(sh, st1, Do(Stage(slot, StagedRecord(s[..SYNM_HDR], name, lay.slotOff[slot]))), after, err)
    ensures err.None? ==> StagedNow(st, after, s, name, slot, lay)
  {
    hide StagedRecord, Region;
  }

  lemma ClearKeepsActive(sh: Shape, st: State, after: State, err: Option<Errno>)
    requires st.On? && Outcome(sh, st, OnClearStaged(st.ram.reg), after, err)
    ensures after.ram.reg.active == st.ram.reg.active
  {
    hide Fits, Region;
  }

  lemma ErasePages(g: Geometry, lay: Layout, m: seq<u8>, slot: u8, total: nat)
    requires Placed(g, lay, m) && slot < lay.slotCount && SYNM_HDR < total <= lay.slotSize
    ensures EraseLen(g, total) > 0 && Aligned(lay.slotOff[slot], EraseLen(g, total), g.sector)
    ensures OnPage(g, lay.slotOff[slot], 0, EraseLen(g, total))
  {
    RegionFits(g, lay, m, 2 + slot);
    LayoutCounts(g, lay);
    assert RegionOff(lay, 2 + slot) == lay.slotOff[slot] && RegionSize(lay, 2 + slot) == lay.slotSize;
    EraseFits(g, lay.slotOff[slot], lay.slotSize, total);
  }

  lemma SlotWasErased(g: Geometry, lay: Layout, c: Chip, d: Chip, slot: nat, len: nat, err: Option<Errno>)
    requires Placed(g, lay, c.mem) && slot < lay.slotCount && 0 < len <= lay.slotSize
    requires lay.slotOff[slot] as int + len <= |c.mem|
    requires WasErased(g, c, d, lay.slotOff[slot], len, err)
    ensures Placed(g, lay, d.mem) && SlotChanged(DiskOf(g, lay, c.mem), DiskOf(g, lay, d.mem), slot)
    ensures err.None? ==> RangeHolds(d.mem, lay.slotOff[slot], len, [], 0)
    ensures Aligned(lay.slotOff[slot], len, g.sector) ==> err.None?
    ensures d.failAfter == c.failAfter
  {
    assert Sound(g) && |c.mem| == g.size;
    EraseFacts(g, c, d, lay.slotOff[slot], len, err);
    hide LayoutOk, DiskOf, Splice, SameOutside, Aligned, WasErased, RangeHolds, Sound, Placed;
    InsideSlot(g, lay, c.mem, d.mem, slot, len);
    RangeErased(c.mem, lay.slotOff[slot], len);
  }

  lemma RangeReads(m: seq<u8>, off: nat, len: nat, s: seq<u8>, w: nat)
    requires RangeHolds(m, off, len, s, w) && |s| <= w
    ensures m[off..off + |s|] == s
  {
    AllWritten(s, len, w);
    hide Partly;
    assert Padded(s, len)[..|s|] == s;
    SliceOfSlice(m, off, off + len, 0, |s|);
  }

  lemma SlotReads(g: Geometry, lay: Layout, m: seq<u8>, slot: nat, s: seq<u8>)
    requires Placed(g, lay, m) && slot < lay.slotCount && |s| <= lay.slotSize
    requires lay.slotOff[slot] as int + |s| <= |m| && m[lay.slotOff[slot]..lay.slotOff[slot] as int + |s|] == s
    ensures HoldsStream(DiskOf(g, lay, m), slot, s)
  {
    var off: nat := lay.slotOff[slot];
    RegionFits(g, lay, m, 2 + slot);
    assert RegionOff(lay, 2 + slot) == off && RegionSize(lay, 2 + slot) == lay.slotSize;
    hide LayoutOk, Placed;
    assert DiskOf(g, lay, m).slots[slot] == RegionAt(g, lay, m, 2 + slot);
    hide DiskOf;
    SliceOfSlice(m, off, off + lay.slotSize, 0, |s|);
  }

  // What an update of this image under this name comes to on a sound port, and what it
  // leaves in a range of len bytes erased for it.
  function UpdateFault(img: seq<u8>, name: seq<u8>): Option<Errno>
    requires |img| >= SYNM_HDR && |name| == NAME_LEN
  {
    if HeaderFault(img[..SYNM_HDR], |img|, name).Some? then HeaderFault(img[..SYNM_HDR], |img|, name)
    else if Crc(img[SYNM_HDR..]) == HeaderCrc(img[..SYNM_HDR]) then None
    else Some(EILSEQ)
  }

  function UpdateLeaves(img: seq<u8>, name: seq<u8>, len: nat): (r: seq<u8>)
    requires SYNM_HDR <= |img| <= len && |name| == NAME_LEN
    ensures |r| == len
  {
    if HeaderFault(img[..SYNM_HDR], |img|, name).Some? then Erased(len) else Padded(img, len)
  }

  // Sending an image and finishing: on a sound port the outcome, what is in flash, and the
  // registry depend on the image and the announced name, not on how the image was cut
  // into chunks. Nothing is programmed before the header has passed.
  method StreamSynm(ota: OtaEngine, chunks: seq<seq<u8>>) returns (err: Option<Errno>)
    requires ota.Valid() && ota.state == Downloading && ota.stream == [] && |Joined(chunks)| == ota.totalSize
    requires ota.store.port.failAfterPages == 0
    modifies ota, ota.pageBuf, ota.store, ota.store.port, ota.store.port.mem
    ensures ota.Valid() && ota.store.ready && |ota.name| == NAME_LEN && SYNM_HDR <= |Joined(chunks)| <= ota.Length()
    ensures ota.slot == old(ota.slot) && ota.totalSize == old(ota.totalSize) && ota.name == old(ota.name)
    ensures err == UpdateFault(Joined(chunks), ota.name) && ota.Ended(err)
    ensures HoldsStream(ota.store.Now().disk, ota.slot, UpdateLeaves(Joined(chunks), ota.name, ota.Length()))
    ensures err.None? ==>
      StagedNow(old(ota.store.Now()), ota.store.Now(), Joined(chunks), ota.name, ota.slot, ota.store.lay)
  {
    ghost var img := Joined(chunks);
    ota.SessionFacts();
    ota.StreamFits();
    hide HeaderFault, OtaEngine.InSession, HoldsStream, StagedNow, Padded, Erased, EraseLen, LayoutOk, DiskOf, RamOk,
         HeaderCrc, Crc, OtaEngine.Owned, OtaEngine.Stored, Sound;
    err := SendChunks(ota, chunks);
    if err.Some? {
      return err;
    }
    hide Sending, Refused, UpdateFault, UpdateLeaves;
    err := FinishSent(ota, img);
  }

  method FinishSent(ota: OtaEngine, ghost img: seq<u8>) returns (err: Option<Errno>)
    requires Sending(ota, img, |img|) && |ota.name| == NAME_LEN && SYNM_HDR <= |img| <= ota.Length() && ota.store.ready
    modifies ota`state, ota`lastError, ota`buffered, ota`writeOff
    modifies ota.pageBuf, ota.store, ota.store.port, ota.store.port.mem
    ensures ota.Valid() && ota.store.ready && ota.Ended(err)
    ensures err == UpdateFault(img, ota.name)
    ensures HoldsStream(ota.store.Now().disk, ota.slot, UpdateLeaves(img, ota.name, ota.Length()))
    ensures err.None? ==> StagedNow(old(ota.store.Now()), ota.store.Now(), img, ota.name, ota.slot, ota.store.lay)
  {
    hide HeaderFault, OtaEngine.InSession, HoldsStream, StagedNow, Padded, Erased, EraseLen, LayoutOk, DiskOf, RamOk,
         HeaderCrc, Crc, OtaEngine.Owned, OtaEngine.Stored;
    AllSent(ota, img);
    ota.StreamFits();
    ghost var run;
    err, run := ota.Finish();
  }

  // The first pos bytes of the image have been accepted, on a sound port.
  ghost predicate Sending(ota: OtaEngine, img: seq<u8>, pos: nat)
    reads ota, ota.store, ota.pageBuf, ota.store.port, ota.store.port.mem
  {
    && ota.Valid() && ota.state == Downloading && pos <= |img| == ota.totalSize && ota.stream == img[..pos]
    && ota.store.port.failAfterPages == 0
  }

  // The header was refused, and the range is still as it was erased.
  ghost predicate Refused(ota: OtaEngine, img: seq<u8>, err: Option<Errno>)
    reads ota, ota.store, ota.pageBuf, ota.store.port, ota.store.port.mem
  {
    && ota.Valid() && ota.store.ready && |img| >= SYNM_HDR && err.Some? && ota.Ended(err)
    && err == HeaderFault(img[..SYNM_HDR], |img|, ota.name)
    && HoldsStream(ota.store.Now().disk, ota.slot, Erased(ota.Length()))
  }

  lemma AllSent(ota: OtaEngine, img: seq<u8>)
    requires Sending(ota, img, |img|)
    ensures ota.Valid() && ota.state == Downloading && ota.stream == img && |ota.name| == NAME_LEN && |img| >= SYNM_HDR
    ensures HeaderFault(img[..SYNM_HDR], |img|, ota.name).None? && ota.store.port.failAfterPages == 0
  {
    ota.SessionFacts();
    assert img[..|img|] == img;
    hide HeaderFault;
  }

  // Every chunk in turn, until one is refused; empty ones are not sent.
  method SendChunks(ota: OtaEngine, chunks: seq<seq<u8>>) returns (err: Option<Errno>)
    requires Sending(ota, Joined(chunks), 0)
    modifies ota`state, ota`lastError, ota`hdr, ota`received, ota`stream, ota`buffered, ota`writeOff
    modifies ota.pageBuf, ota.store.port, ota.store.port.mem
    ensures if err.None? then Sending(ota, Joined(chunks), |Joined(chunks)|) else Refused(ota, Joined(chunks), err)
  {
    ghost var img := Joined(chunks);
    hide Sending, Refused;
    ghost var pos: nat := 0;
    assert chunks[0..] == chunks && img[0..] == img;
    for i := 0 to |chunks|
      invariant pos <= |img| && img[pos..] == Joined(chunks[i..]) && Sending(ota, img, pos)
    {
      assert chunks[i..][0] == chunks[i] && chunks[i..][1..] == chunks[i + 1..];
      ghost var chunk, rest := chunks[i], Joined(chunks[i + 1..]);
      assert img[pos..] == chunk + rest;
      assert img[pos..pos + |chunk|] == img[pos..][..|chunk|] == chunk;
      assert img[pos + |chunk|..] == img[pos..][|chunk|..] == rest;
      if chunks[i] != [] {
        err := SendChunk(ota, img, pos, chunks[i]);
        if err.Some? {
          return err;
        }
      }
      pos := pos + |chunk|;
    }
    assert chunks[|chunks|..] == [] && pos == |img|;
    err := None;
  }

  method SendChunk(ota: OtaEngine, ghost img: seq<u8>, ghost pos: nat, chunk: seq<u8>) returns (err: Option<Errno>)
    requires Sending(ota, img, pos) && chunk != [] && pos + |chunk| <= |img| && chunk == img[pos..pos + |chunk|]
    modifies ota`state, ota`lastError, ota`hdr, ota`received, ota`stream, ota`buffered, ota`writeOff
    modifies ota.pageBuf, ota.store.port, ota.store.port.mem
    ensures if err.None? then Sending(ota, img, pos + |chunk|) else Refused(ota, img, err)
  {
    ota.SessionFacts();
    if pos < SYNM_HDR {
      ota.ErasedUntilHeader();
    }
    hide HeaderFault, OtaEngine.InSession, HoldsStream, EraseLen, Erased, LayoutOk, DiskOf, RamOk, Sending,
         HeaderPassed, Sound;
    err := SendOne(ota, img, pos, chunk);
  }

  method SendOne(ota: OtaEngine, ghost img: seq<u8>, ghost pos: nat, chunk: seq<u8>) returns (err: Option<Errno>)
    requires Sending(ota, img, pos) && chunk != [] && pos + |chunk| <= |img| && chunk == img[pos..pos + |chunk|]
    requires ota.store.ready
    modifies ota`state, ota`lastError, ota`hdr, ota`received, ota`stream, ota`buffered, ota`writeOff
    modifies ota.pageBuf, ota.store.port, ota.store.port.mem
    ensures err.None? ==> Sending(ota, img, pos + |chunk|)
    ensures err.Some? ==> ota.Valid() && ota.Ended(err) && pos < SYNM_HDR <= |img|
    ensures err.Some? ==> err == HeaderFault(img[..SYNM_HDR], |img|, ota.name)
    ensures err.Some? ==> ota.store.Now() == old(ota.store.Now())
  {
    ota.SessionFacts();
    hide HeaderFault, OtaEngine.InSession, HeaderPassed, LayoutOk, DiskOf, RamOk, Fed, SlotChanged, Sound;
    SoFar(img, pos, |chunk|, ota.name);
    label before:
    err := ota.WriteChunk(chunk);
    if err.Some? {
      StoreIsSame@before(ota.store);
    }
  }

  twostate lemma StoreIsSame(store: ModelStore)
    requires old(store.Valid()) && store.Valid() && old(store.ready)
    requires unchanged(store) && unchanged(store.port) && unchanged(store.port.mem)
    ensures store.ready && store.Now() == old(store.Now())
  {
    assert store.port.mem[..] == old(store.port.mem[..]);
  }

  lemma SoFar(img: seq<u8>, pos: nat, n: nat, name: seq<u8>)
    requires pos + n <= |img| && |name| == NAME_LEN && |img| >= SYNM_HDR && HeaderPassed(img[..pos], |img|, name)
    ensures var next := Fed(|img|, name, Receiving(img[..pos]), img[pos..pos + n]);
            next == Receiving(img[..pos + n]) || (HeaderFault(img[..SYNM_HDR], |img|, name).Some? &&
                                                  next == Stopped(HeaderFault(img[..SYNM_HDR], |img|, name).value) &&
                                                  pos < SYNM_HDR)
  {
    hide HeaderFault;
    assert img[..pos] + img[pos..pos + n] == img[..pos + n];
    assert pos + n >= SYNM_HDR ==> img[..pos + n][..SYNM_HDR] == img[..SYNM_HDR];
  }
}
