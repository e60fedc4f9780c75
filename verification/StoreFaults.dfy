// Two runs from power-on that go on after a failed commit, one for each condition of the
// theorems of module StoreRuns, and the fault of the flash port behind them.
module StoreFaults {
  import opened Errno
  import opened Bytes
  import opened Crc32
  import opened FlashRam
  import opened StoreImage
  import opened StoreRoles
  import opened StoreRuns

  // ---- a commit that fails although its image is in place ----

  // The last page is the one the fault hits, and what the image has there fits in the
  // half that lands: the write fails, and the region holds the whole image.
  lemma FaultLeavesTheImage(sh: Shape, img: Image, c: Chip, off: nat)
    requires ShapeOk(sh) && Fits(img.reg, sh.slots) && off + sh.registrySize <= |c.mem|
    requires BlankAt(c.mem, off, sh.registrySize)
    requires RoundUp(ImgSize(sh.slots), sh.page) - ImgSize(sh.slots) >= sh.page - sh.page / 2
    requires c.failAfter == Pages(|Built(img, sh.page)|, sh.page)
    ensures var r := FlashRam.Program(c, off, Built(img, sh.page), sh.page);
            r.err == Some(EIO) && r.chip.mem[off..off + sh.registrySize] == Region(sh, img)
  {
    var data := Built(img, sh.page);
    assert forall i :: ImgSize(sh.slots) <= i < |data| ==> data[i] == BLANK;
    RoundUpIsWhole(ImgSize(sh.slots), sh.page);
    assert BlankAt(data, |data| - (sh.page - sh.page / 2), sh.page - sh.page / 2);
    assert |data| > 0;
    SectorLeft(|data|, sh.page);
    hide Built, FlashRam.Program, Splice, Pages, RoundUp, BlankAt, Whole;
    FaultLandsWhole(c, off, data, sh.page);
    SplicedRegion(c.mem, off, data, sh.registrySize);
  }

  lemma RoundUpIsWhole(v: nat, page: nat)
    requires page > 0
    ensures RoundUp(v, page) % page == 0
  {
    var r := RoundUp(v, page);
    assert r == r / page * page;
  }

  lemma SplicedRegion(m: seq<u8>, off: nat, data: seq<u8>, size: nat)
    requires off + size <= |m| && |data| <= size && BlankAt(m, off, size)
    ensures Splice(m, off, data)[off..off + size] == data + Erased(size - |data|)
  {
  }

  ghost predicate Settled(sh: Shape, st: State)
    requires StateOk(sh, st)
  {
    && st.On? && RolesOk(st.ram.reg, sh.slots)
    && st.ram.valid[st.ram.newest] && Holding(Copies(sh, st.disk), st.ram, [])
  }

  // The attempt's whole image stands in the other copy.
  ghost predicate Landed(sh: Shape, st: State, img: Image)
    requires StateOk(sh, st)
  {
    && st.On? && Found(sh, st.disk, 1 - st.ram.newest) == Some(img)
    && Found(sh, st.disk, st.ram.newest).Some?
    && Found(sh, st.disk, st.ram.newest).value.gen == st.ram.gen
    && img.gen == st.ram.gen + 1
  }

  lemma LandedIsAdopted(sh: Shape, st: State, img: Image)
    requires StateOk(sh, st) && Landed(sh, st, img)
    ensures Adopted(sh, st.disk) == img.reg
  {
    hide Load, RoundUp, ShapeOk;
  }

  // The commit of op fails although its image is in place whole.
  function LandedTear(sh: Shape, st: State, op: Op): Event
    requires StateOk(sh, st) && st.On? && Allowed(st.ram.reg, op) && Fits(Apply(st.ram.reg, op), sh.slots)
  {
    Torn(op, Region(sh, NextImage(st.ram, Apply(st.ram.reg, op))), 0, false)
  }

  lemma LandedTearEnabled(sh: Shape, st: State, op: Op)
    requires StateOk(sh, st) && Commits(sh, st, op)
    ensures Enabled(sh, st, LandedTear(sh, st, op)) && TearShows(sh, st, LandedTear(sh, st, op))
    ensures Next(sh, st, LandedTear(sh, st, op)) ==
            Failed(sh, st.disk, st.ram, Region(sh, NextImage(st.ram, Apply(st.ram.reg, op))), 0)
  {
    var img := NextImage(st.ram, Apply(st.ram.reg, op));
    hide Apply, Region, Allowed, Fits, Checked, Load, NextImage, DiskOk, ShapeOk;
    RegionLoads(sh, img);
  }

  lemma FailsLanded(sh: Shape, st: State, op: Op)
    requires StateOk(sh, st) && Settled(sh, st) && Commits(sh, st, op)
    ensures Enabled(sh, st, LandedTear(sh, st, op))
    ensures Landed(sh, Next(sh, st, LandedTear(sh, st, op)), NextImage(st.ram, Apply(st.ram.reg, op)))
    ensures SameRun(st, Next(sh, st, LandedTear(sh, st, op)))
  {
    LandedTearEnabled(sh, st, op);
    var reg := Apply(st.ram.reg, op);
    hide RolesOk, Load, Apply, Region, Allowed, Fits, Checked, TearShows, Enabled, NextImage;
    assert Copies(sh, st.disk)[st.ram.newest] == Found(sh, st.disk, st.ram.newest);
    hide Holding, Found, DiskOk, ShapeOk, RamOk, Landed, SameRun, Next, LandedTear, Failed;
    FailedLanded(sh, st.disk, st.ram, reg);
    FailedSameRun(sh, st.disk, st.ram, Region(sh, NextImage(st.ram, reg)));
  }

  lemma FailedSameRun(sh: Shape, d: Disk, ram: Ram, left: seq<u8>)
    requires ShapeOk(sh) && DiskOk(sh, d) && RamOk(sh, ram) && ram.valid[ram.newest] && |left| == sh.registrySize
    ensures SameRun(On(d, ram), Failed(sh, d, ram, left, 0))
  {
  }

  lemma FailedLanded(sh: Shape, d: Disk, ram: Ram, reg: Registry)
    requires ShapeOk(sh) && DiskOk(sh, d) && RamOk(sh, ram) && Fits(reg, sh.slots)
    requires ram.valid[ram.newest] && ram.gen < 0xFFFF_FFFF
    requires Found(sh, d, ram.newest).Some? && Found(sh, d, ram.newest).value.gen == ram.gen
    ensures Landed(sh, Failed(sh, d, ram, Region(sh, NextImage(ram, reg)), 0), NextImage(ram, reg))
  {
    var img := NextImage(ram, reg);
    hide Load, Region, Fits;
    RegionLoads(sh, img);
    Unwrapped(ram.gen + 1);
    hide Wrap32;
    assert img.gen == ram.gen + 1;
    hide NextImage;
    var c := ram.newest;
    assert Target(ram) == 1 - c;
    var after := Failed(sh, d, ram, Region(sh, img), 0);
    assert after.disk.copies == d.copies[1 - c := Region(sh, img)];
    assert after.On? && after.ram.newest == c && after.ram.gen == ram.gen;
    hide Failed, Target;
    assert Found(sh, after.disk, 1 - c) == Some(img);
    assert Found(sh, after.disk, c) == Found(sh, d, c);
  }

  // Nothing the next operation looks at has changed.
  predicate SameRun(st: State, after: State) {
    && st.On? && after.On? && after.disk.slots == st.disk.slots
    && after.ram.reg == st.ram.reg && after.ram.gen == st.ram.gen && after.ram.newest == st.ram.newest
    && |st.ram.valid| == |after.ram.valid| == 2 && st.ram.newest < 2
    && after.ram.valid[st.ram.newest] == st.ram.valid[st.ram.newest]
  }

  lemma FailsUntouched(sh: Shape, st: State, op: Op, img: Image)
    requires StateOk(sh, st) && st.On? && st.ram.valid[st.ram.newest] && Commits(sh, st, op) && Landed(sh, st, img)
    ensures var c := Target(st.ram);
            var e := Torn(op, st.disk.copies[c], st.ram.wear[c], false);
            && Enabled(sh, st, e) && TearShows(sh, st, e)
            && Next(sh, st, e).On? && Landed(sh, Next(sh, st, e), img)
  {
    hide Load, Apply, Allowed, Fits, Checked;
    var c := Target(st.ram);
    assert st.disk.copies[c := st.disk.copies[c]] == st.disk.copies;
  }

  // ---- runs from power-on ----

  function PowerOn(sh: Shape): (d: Disk)
    requires ShapeOk(sh)
    ensures DiskOk(sh, d)
  {
    hide ShapeOk;
    Disk([Erased(sh.registrySize), Erased(sh.registrySize)], seq(sh.slots, _ => Erased(sh.slotSize)))
  }

  // A record of a model of one byte, and a slot that holds it.
  function OneByteRecord(): Record {
    seq(60, _ => 0) + Le32(1) + Le32(0) + Le32(Crc([0])) + seq(16, _ => 0)
  }

  function OneByteSlot(sh: Shape): (r: seq<u8>)
    requires ShapeOk(sh)
    ensures |r| == sh.slotSize
  {
    Erased(SYNM_HDR) + [0] + Erased(sh.slotSize - SYNM_HDR - 1)
  }

  lemma OneByteReads()
    ensures FlashSize(OneByteRecord()) == 1 && RecordCrc(OneByteRecord()) == Crc([0])
  {
    var rec := OneByteRecord();
    hide Crc, Le32, Rd32;
    assert rec[60..64] == Le32(1) && rec[68..72] == Le32(Crc([0]));
    Rd32OfLe32(rec, 60, 1);
    Rd32OfLe32(rec, 68, Crc([0]));
  }

  // The payload is in the slot, and not in an erased one.
  lemma OneByteIsThere(sh: Shape)
    requires ShapeOk(sh)
    ensures PayloadOk(OneByteSlot(sh), OneByteRecord()) && !PayloadOk(Erased(sh.slotSize), OneByteRecord())
  {
    OneByteReads();
    hide Crc, FlashSize, RecordCrc, OneByteRecord;
    assert OneByteSlot(sh)[SYNM_HDR..SYNM_HDR + 1] == [0];
    assert Erased(sh.slotSize)[SYNM_HDR..SYNM_HDR + 1] == [BLANK];
    OneByteChangeIsSeen([], 0, BLANK, []);
    assert [] + [0] + [] == [0] && [] + [BLANK] + [] == [BLANK];
  }

  // A possible run that takes st and past p to after and past q.
  ghost predicate Goes(sh: Shape, st: State, p: Past, run: seq<Event>, after: State, q: Past)
    requires StateOk(sh, st)
  {
    Possible(sh, st, run) && TearsShow(sh, st, run) && Run(sh, st, run) == after && PastOf(sh, st, run, p) == q
  }

  lemma {:induction false} GoesOn(sh: Shape, st: State, p: Past, run: seq<Event>, mid: State, q: Past, e: Event)
    requires StateOk(sh, st) && Goes(sh, st, p, run, mid, q) && Enabled(sh, mid, e) && TearShows(sh, mid, e)
    ensures Goes(sh, st, p, run + [e], Next(sh, mid, e), Recall(sh, mid, e, q))
    decreases |run|
  {
    hide Enabled, TearShows, Next, Recall;
    if run == [] {
      assert [e][1..] == [] && run + [e] == [e];
      GoesNowhere(sh, Next(sh, mid, e), Recall(sh, mid, e, q));
    } else {
      GoesOn(sh, Next(sh, st, run[0]), Recall(sh, st, run[0], p), run[1..], mid, q, e);
      assert (run + [e])[0] == run[0] && (run + [e])[1..] == run[1..] + [e];
    }
  }

  lemma GoesNowhere(sh: Shape, st: State, p: Past)
    requires StateOk(sh, st)
    ensures Goes(sh, st, p, [], st, p)
  {
  }

  // One model installed in slot 0, and another's payload in slot 1.
  function Installed0(sh: Shape): (st: State)
    requires ShapeOk(sh)
    ensures StateOk(sh, st)
  {
    Committed(sh, PayloadsWritten(sh), EmptyRam(sh), Installed(Empty(sh.slots), 0, OneByteRecord()))
  }

  function EmptyRam(sh: Shape): Ram {
    Ram(Empty(sh.slots), 0, [0, 0], [false, false], 0)
  }

  function PayloadsWritten(sh: Shape): (d: Disk)
    requires ShapeOk(sh)
    ensures DiskOk(sh, d)
  {
    PowerOn(sh).(slots := PowerOn(sh).slots[0 := OneByteSlot(sh)][1 := OneByteSlot(sh)])
  }

  lemma BootsEmpty(sh: Shape)
    requires ShapeOk(sh)
    ensures Enabled(sh, Off(PowerOn(sh)), Boot) && Next(sh, Off(PowerOn(sh)), Boot) == On(PowerOn(sh), EmptyRam(sh))
    ensures Adopted(sh, PowerOn(sh)) == Empty(sh.slots)
  {
    assert BlankAt(Erased(sh.registrySize), 0, sh.page);
    assert Found(sh, PowerOn(sh), 0).None? && Found(sh, PowerOn(sh), 1).None?;
    hide Load;
  }

  lemma WritesPayloads(sh: Shape)
    requires ShapeOk(sh)
    ensures var st := On(PowerOn(sh), EmptyRam(sh));
            var write0, write1 := Event.Program(0, OneByteSlot(sh)), Event.Program(1, OneByteSlot(sh));
            && Enabled(sh, st, write0) && Enabled(sh, Next(sh, st, write0), write1)
            && Next(sh, Next(sh, st, write0), write1) == On(PayloadsWritten(sh), EmptyRam(sh))
  {
    hide OneByteSlot;
  }

  lemma InstallAllowed(slots: nat)
    requires 2 <= slots <= MAX_SLOTS
    ensures var op := Install(0, OneByteRecord());
            && Allowed(Empty(slots), op) && Apply(Empty(slots), op) == Installed(Empty(slots), 0, OneByteRecord())
            && Fits(Apply(Empty(slots), op), slots)
  {
    hide OneByteRecord;
  }

  lemma EmptyRamOk(sh: Shape)
    requires ShapeOk(sh)
    ensures RamOk(sh, EmptyRam(sh)) && EmptyRam(sh).reg == Empty(sh.slots) && EmptyRam(sh).gen == 0
  {
  }

  lemma WrittenSlots(sh: Shape)
    requires ShapeOk(sh)
    ensures |PayloadsWritten(sh).slots| == sh.slots >= 2
    ensures PayloadsWritten(sh).slots[0] == PayloadsWritten(sh).slots[1] == OneByteSlot(sh)
  {
    hide OneByteSlot;
  }

  lemma SlotsChecked(sh: Shape, s: u8)
    requires ShapeOk(sh) && s < 2
    ensures Checked(PayloadsWritten(sh).slots, Install(s, OneByteRecord()))
    ensures Checked(PayloadsWritten(sh).slots, Stage(s, OneByteRecord()))
  {
    hide PayloadsWritten, OneByteSlot, OneByteRecord, PayloadOk, ShapeOk, RoundUp, Crc;
    WrittenSlots(sh);
    OneByteIsThere(sh);
  }

  lemma CommitStep(sh: Shape, d: Disk, ram: Ram, op: Op)
    requires ShapeOk(sh) && DiskOk(sh, d) && RamOk(sh, ram) && ram.gen < 0xFFFF_FFFF
    requires Allowed(ram.reg, op) && Fits(Apply(ram.reg, op), sh.slots) && Checked(d.slots, op)
    ensures Enabled(sh, On(d, ram), Commit(op))
    ensures Next(sh, On(d, ram), Commit(op)) == Committed(sh, d, ram, Apply(ram.reg, op))
  {
    hide Apply, Allowed, Fits, Checked, Committed;
  }

  lemma InstallsSlot0(sh: Shape)
    requires ShapeOk(sh)
    ensures var st := On(PayloadsWritten(sh), EmptyRam(sh));
            && StateOk(sh, st) && Enabled(sh, st, Commit(Install(0, OneByteRecord())))
            && Next(sh, st, Commit(Install(0, OneByteRecord()))) == Installed0(sh)
  {
    EmptyRamOk(sh);
    SlotsChecked(sh, 0);
    InstallAllowed(sh.slots);
    hide Checked, OneByteSlot, OneByteRecord, PayloadOk, Region, Allowed, Apply, Fits, Committed, Installed,
         PayloadsWritten, EmptyRam, ShapeOk, DiskOk, RamOk, Empty, Enabled, Next;
    CommitStep(sh, PayloadsWritten(sh), EmptyRam(sh), Install(0, OneByteRecord()));
  }

  // Boot, write two payloads, install the first: a settled store.
  lemma InstallRun(sh: Shape) returns (run: seq<Event>)
    requires ShapeOk(sh)
    ensures var start := Past(Empty(sh.slots), []);
            Goes(sh, Off(PowerOn(sh)), start, run, Installed0(sh), Past(Installed0(sh).ram.reg, []))
  {
    var start, rec := Past(Empty(sh.slots), []), OneByteRecord();
    var off, booted := Off(PowerOn(sh)), On(PowerOn(sh), EmptyRam(sh));
    var write0, write1 := Event.Program(0, OneByteSlot(sh)), Event.Program(1, OneByteSlot(sh));
    BootsEmpty(sh);
    WritesPayloads(sh);
    InstallsSlot0(sh);
    hide Load, OneByteSlot, OneByteRecord, Enabled, Goes, PayloadsWritten, PowerOn, Region, Committed, EmptyRam,
         Adopted, Installed0, Next;
    GoesNowhere(sh, off, start);
    GoesOn(sh, off, start, [], off, start, Boot);
    GoesOn(sh, off, start, [] + [Boot], booted, start, write0);
    GoesOn(sh, off, start, [] + [Boot] + [write0], Next(sh, booted, write0), start, write1);
    var written := On(PayloadsWritten(sh), EmptyRam(sh));
    GoesOn(sh, off, start, [] + [Boot] + [write0] + [write1], written, start, Commit(Install(0, rec)));
    run := [] + [Boot] + [write0] + [write1] + [Commit(Install(0, rec))];
  }

  lemma InstalledSettled(sh: Shape)
    requires ShapeOk(sh)
    ensures Settled(sh, Installed0(sh))
  {
    var start, off := Past(Empty(sh.slots), []), Off(PowerOn(sh));
    var run := InstallRun(sh);
    ErasedIsFresh(sh, PowerOn(sh));
    assert Inv(sh, off, start);
    hide Load, OneByteRecord, PayloadsWritten, PowerOn, Region, EmptyRam, Adopted, RolesOk, Possible, TearsShow, Run,
         PastOf, Holding;
    RunKeepsInv(sh, off, run, start);
    assert Installed0(sh).ram.valid[Installed0(sh).ram.newest];
  }

  // After that, two operations on slot 1 may follow, with different outcomes.
  function StageNext(): Op { Stage(1, OneByteRecord()) }
  function InstallNext(): Op { Install(1, OneByteRecord()) }

  lemma BothAllowed(slots: nat)
    requires 2 <= slots <= MAX_SLOTS
    ensures var reg, a, b := Installed(Empty(slots), 0, OneByteRecord()), StageNext(), InstallNext();
            && Allowed(reg, a) && Allowed(reg, b)
            && Fits(Apply(reg, a), slots) && Fits(Apply(reg, b), slots)
            && Apply(reg, a) != reg && Apply(reg, a) != Apply(reg, b)
  {
    hide OneByteRecord;
    var reg := Installed(Empty(slots), 0, OneByteRecord());
    assert Apply(reg, StageNext()).active == 0 && Apply(reg, InstallNext()).active == 1;
    assert Apply(reg, StageNext()).occupied[1] && !reg.occupied[1];
  }

  lemma InstalledState(sh: Shape)
    requires ShapeOk(sh)
    ensures var st := Installed0(sh);
            && st.On? && st.ram.gen == 1 && st.disk.slots == PayloadsWritten(sh).slots
            && st.ram.reg == Installed(Empty(sh.slots), 0, OneByteRecord())
  {
    Unwrapped(1);
    hide OneByteSlot, OneByteRecord, Region, Wrap32, Installed, Empty;
  }

  lemma BothCommit(sh: Shape)
    requires ShapeOk(sh)
    ensures var st, a, b := Installed0(sh), StageNext(), InstallNext();
            && Commits(sh, st, a) && Commits(sh, st, b)
            && Apply(st.ram.reg, a) != st.ram.reg && Apply(st.ram.reg, a) != Apply(st.ram.reg, b)
  {
    InstalledState(sh);
    BothAllowed(sh.slots);
    SlotsChecked(sh, 1);
    hide Checked, Installed0, PayloadsWritten, OneByteSlot, OneByteRecord, PayloadOk, Allowed, Apply, Fits, Installed,
         Empty;
  }

  // Three more events.
  ghost predicate ThreeEnabled(sh: Shape, st: State, a: Event, b: Event, c: Event)
    requires StateOk(sh, st)
  {
    && Enabled(sh, st, a) && TearShows(sh, st, a)
    && Enabled(sh, Next(sh, st, a), b) && TearShows(sh, Next(sh, st, a), b)
    && Enabled(sh, Next(sh, Next(sh, st, a), b), c) && TearShows(sh, Next(sh, Next(sh, st, a), b), c)
  }

  lemma ThreeMore(sh: Shape, a: Event, b: Event, c: Event) returns (run: seq<Event>)
    requires ShapeOk(sh) && ThreeEnabled(sh, Installed0(sh), a, b, c)
    ensures Goes(sh, Off(PowerOn(sh)), Past(Empty(sh.slots), []), run,
                 Next(sh, Next(sh, Next(sh, Installed0(sh), a), b), c),
                 Recall(sh, Next(sh, Next(sh, Installed0(sh), a), b), c,
                        Recall(sh, Next(sh, Installed0(sh), a), b,
                               Recall(sh, Installed0(sh), a, Past(Installed0(sh).ram.reg, [])))))
  {
    var start, off, st := Past(Empty(sh.slots), []), Off(PowerOn(sh)), Installed0(sh);
    var before := InstallRun(sh);
    hide Goes, Enabled, TearShows, Next, Recall, PowerOn, Installed0;
    var held := Past(st.ram.reg, []);
    var u := Next(sh, st, a);
    var v := Next(sh, u, b);
    GoesOn(sh, off, start, before, st, held, a);
    GoesOn(sh, off, start, before + [a], u, Recall(sh, st, a, held), b);
    GoesOn(sh, off, start, before + [a] + [b], v, Recall(sh, u, b, Recall(sh, st, a, held)), c);
    run := before + [a] + [b] + [c];
  }

  lemma CutGoesOff(sh: Shape, st: State)
    requires StateOk(sh, st) && st.On?
    ensures Enabled(sh, st, Cut) && TearShows(sh, st, Cut) && Next(sh, st, Cut) == Off(st.disk)
  {
  }

  lemma TornRecalls(sh: Shape, st: State, e: Event, p: Past)
    requires StateOk(sh, st) && Enabled(sh, st, e) && e.Torn? && st.On? && Applies(st.ram.reg, e.op)
    ensures Recall(sh, st, e, p) == Past(p.held, p.tried + [Apply(st.ram.reg, e.op)])
  {
  }

  lemma OldAttemptSteps(sh: Shape) returns (first: Event, second: Event)
    requires ShapeOk(sh)
    ensures ThreeEnabled(sh, Installed0(sh), first, second, Cut)
    ensures first.Torn? && first.op == StageNext() && second.Torn? && second.op == InstallNext()
    ensures var st := Installed0(sh);
            var u := Next(sh, st, first);
            && u.On? && u.ram.reg == st.ram.reg
            && Adopted(sh, Next(sh, Next(sh, u, second), Cut).disk) == Apply(st.ram.reg, StageNext())
  {
    var st, a, b := Installed0(sh), StageNext(), InstallNext();
    InstalledSettled(sh);
    BothCommit(sh);
    hide Installed0, StageNext, InstallNext, Region, Load, RolesOk;
    var img := NextImage(st.ram, Apply(st.ram.reg, a));
    first := LandedTear(sh, st, a);
    LandedTearEnabled(sh, st, a);
    FailsLanded(sh, st, a);
    hide Allowed, Fits, Checked, Landed, Next, Holding, Apply, Adopted, TearShows, LandedTear, Settled;
    var u := Next(sh, st, first);
    second := Torn(b, u.disk.copies[Target(u.ram)], u.ram.wear[Target(u.ram)], false);
    FailsUntouched(sh, u, b, img);
    hide Enabled, Commits, NextImage;
    var v := Next(sh, u, second);
    LandedIsAdopted(sh, v, img);
    CutGoesOff(sh, v);
  }

  // From power-on, a model is installed and two commits fail: the first after its image
  // landed, the second because the port refused to erase. Running on until power is cut,
  // the boot adopts the first attempt, which is neither what was committed nor what was
  // attempted last.
  lemma RunningOnAdoptsAnOldAttempt(sh: Shape) returns (run: seq<Event>)
    requires ShapeOk(sh)
    ensures Fresh(sh, PowerOn(sh)) && Possible(sh, Off(PowerOn(sh)), run) && TearsShow(sh, Off(PowerOn(sh)), run)
    ensures var p, adopted := Remembered(sh, PowerOn(sh), run), Adopted(sh, Run(sh, Off(PowerOn(sh)), run).disk);
            |p.tried| == 2 && adopted == p.tried[0] && adopted != p.tried[1] && adopted != p.held
  {
    ErasedIsFresh(sh, PowerOn(sh));
    BothCommit(sh);
    var first, second := OldAttemptSteps(sh);
    run := ThreeMore(sh, first, second, Cut);
    hide PowerOn, Installed0, StageNext, InstallNext, Possible, TearsShow, Run, PastOf, Fresh, Adopted, Next, Enabled,
         Apply, TearShows, Commits, ShapeOk, DiskOk, RamOk, ThreeEnabled, Allowed, Fits, Applies;
    var st := Installed0(sh);
    var u := Next(sh, st, first);
    TornRecalls(sh, st, first, Past(st.ram.reg, []));
    TornRecalls(sh, u, second, Recall(sh, st, first, Past(st.ram.reg, [])));
  }

  lemma LostPayloadSteps(sh: Shape) returns (first: Event, second: Event)
    requires ShapeOk(sh)
    ensures ThreeEnabled(sh, Installed0(sh), first, second, Cut)
    ensures first.Torn? && second.Program?
    ensures var after := Next(sh, Next(sh, Next(sh, Installed0(sh), first), second), Cut).disk;
            !Backed(after.slots, Adopted(sh, after))
  {
    var st, rec, erased := Installed0(sh), OneByteRecord(), Erased(sh.slotSize);
    InstalledSettled(sh);
    BothCommit(sh);
    OneByteIsThere(sh);
    hide OneByteRecord, OneByteSlot, Installed0, Region, Load, RolesOk, PayloadOk, Backed;
    first := LandedTear(sh, st, Stage(1, rec));
    LandedTearEnabled(sh, st, Stage(1, rec));
    RecordUnbacked(sh, st, 1, rec, erased);
    hide Allowed, Fits, Checked, Landed, Holding, Apply, Adopted, TearShows, LandedTear, Next, Settled, Commits;
    second := Event.Program(1, erased);
    CutGoesOff(sh, Next(sh, Next(sh, st, first), second));
    hide Enabled;
  }

  // From power-on, a model is installed and a staging commit reports failure although its
  // image landed. The slot is free in RAM, so the next session erases it without a commit;
  // cut power then, and the boot adopts a record whose payload is gone.
  lemma RunningOnLosesAPayload(sh: Shape) returns (run: seq<Event>)
    requires ShapeOk(sh)
    ensures var d := PowerOn(sh); Fresh(sh, d) && Backed(d.slots, Adopted(sh, d))
    ensures Possible(sh, Off(PowerOn(sh)), run) && TearsShow(sh, Off(PowerOn(sh)), run)
    ensures |Remembered(sh, PowerOn(sh), run).tried| == 1
    ensures var after := Run(sh, Off(PowerOn(sh)), run).disk; !Backed(after.slots, Adopted(sh, after))
  {
    ErasedIsFresh(sh, PowerOn(sh));
    var first, second := LostPayloadSteps(sh);
    run := ThreeMore(sh, first, second, Cut);
    hide PowerOn, Installed0, Possible, TearsShow, Run, PastOf, Fresh, Adopted, Next, Enabled, Apply, TearShows,
         Backed;
  }

  lemma RecordUnbacked(sh: Shape, st: State, s: u8, rec: Record, erased: seq<u8>)
    requires StateOk(sh, st) && Settled(sh, st) && Commits(sh, st, Stage(s, rec))
    requires |erased| == sh.slotSize && !PayloadOk(erased, rec)
    requires Enabled(sh, st, LandedTear(sh, st, Stage(s, rec)))
    ensures var u := Next(sh, st, LandedTear(sh, st, Stage(s, rec)));
            && Enabled(sh, u, Event.Program(s, erased)) && TearShows(sh, u, Event.Program(s, erased))
            && var v := Next(sh, u, Event.Program(s, erased));
               v.On? && !Backed(v.disk.slots, Adopted(sh, v.disk))
  {
    var reg := Apply(st.ram.reg, Stage(s, rec));
    assert !st.ram.reg.occupied[s] && reg.occupied[s] && reg.recs[s] == rec && s < |reg.recs|;
    FailsLanded(sh, st, Stage(s, rec));
    assert s < sh.slots;
    hide Allowed, Fits, Checked, Holding, Apply, Adopted, Region, PayloadOk, Load, Next, Landed, Enabled, TearShows,
         LandedTear;
    var u := Next(sh, st, LandedTear(sh, st, Stage(s, rec)));
    SlotErased(sh, u, s, erased, NextImage(st.ram, reg));
    var v := Next(sh, u, Event.Program(s, erased));
    hide NextImage, DiskOk;
    LandedIsAdopted(sh, v, NextImage(st.ram, reg));
    Unbacked(v.disk.slots, reg, s);
    hide Backed;
  }

  lemma Unbacked(slots: seq<seq<u8>>, reg: Registry, s: nat)
    requires s < |slots| && s < |reg.occupied| == |reg.recs| && reg.occupied[s] && !PayloadOk(slots[s], reg.recs[s])
    ensures !Backed(slots, reg)
  {
  }

  lemma SlotErased(sh: Shape, st: State, s: u8, erased: seq<u8>, img: Image)
    requires StateOk(sh, st) && Landed(sh, st, img) && s < sh.slots && !st.ram.reg.occupied[s]
    requires |erased| == sh.slotSize
    ensures Enabled(sh, st, Event.Program(s, erased)) && TearShows(sh, st, Event.Program(s, erased))
    ensures var after := Next(sh, st, Event.Program(s, erased));
            Landed(sh, after, img) && after.disk.slots == st.disk.slots[s := erased]
  {
    hide Load;
  }
}
