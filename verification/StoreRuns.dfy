// The model store as a machine that can lose power inside any erase or program.
//
// The flash is seen as its regions: two registry copies and the model slots. A commit
// that does not complete, whether power fails or the port reports an error, leaves its
// registry copy with arbitrary bytes. That such a torn copy does not validate as
// anything but what was there before or what was being written is a hypothesis of the
// theorems, TearsShow; a checksum cannot guarantee it.
module StoreRuns {
  import opened Errno
  import opened Bytes
  import opened Crc32
  import opened FlashRam
  import opened StoreImage
  import opened StoreRoles

  datatype Shape = Shape(slots: nat, page: nat, registrySize: nat, slotSize: nat)

  predicate ShapeOk(sh: Shape) {
    && 2 <= sh.slots <= MAX_SLOTS
    && 0 < sh.page <= sh.registrySize
    && RoundUp(ImgSize(sh.slots), sh.page) <= sh.registrySize
    && SYNM_HDR < sh.slotSize
  }

  datatype Disk = Disk(copies: seq<seq<u8>>, slots: seq<seq<u8>>)

  predicate DiskOk(sh: Shape, d: Disk) {
    && |d.copies| == 2 && |d.copies[0]| == |d.copies[1]| == sh.registrySize
    && |d.slots| == sh.slots && forall s :: 0 <= s < sh.slots ==> |d.slots[s]| == sh.slotSize
  }

  function Found(sh: Shape, d: Disk, c: nat): Option<Image>
    requires ShapeOk(sh) && DiskOk(sh, d) && c < 2
  {
    Load(d.copies[c], sh.page, sh.slots)
  }

  // ---- the boot scan ----

  function Newest(a: Option<Image>, b: Option<Image>): Option<nat> {
    if a.Some? && b.Some? then Some(if b.value.gen > a.value.gen then 1 else 0)
    else if a.Some? then Some(0)
    else if b.Some? then Some(1)
    else Option.None
  }

  datatype Ram = Ram(reg: Registry, gen: u32, wear: seq<u32>, valid: seq<bool>, newest: nat)

  predicate RamOk(sh: Shape, ram: Ram) {
    |ram.wear| == |ram.valid| == 2 && ram.newest < 2 && Fits(ram.reg, sh.slots)
  }

  function WearOf(i: Option<Image>): u32 {
    if i.Some? then i.value.wear else 0
  }

  function Scan(slots: nat, a: Option<Image>, b: Option<Image>): Ram {
    var newest := Newest(a, b);
    if newest.None? then Ram(Empty(slots), 0, [0, 0], [false, false], 0)
    else
      var adopted := if newest.value == 0 then a.value else b.value;
      Ram(adopted.reg, adopted.gen, [WearOf(a), WearOf(b)], [a.Some?, b.Some?], newest.value)
  }

  function Init(sh: Shape, d: Disk): Ram
    requires ShapeOk(sh) && DiskOk(sh, d)
  {
    Scan(sh.slots, Found(sh, d, 0), Found(sh, d, 1))
  }

  // The registry the next boot adopts.
  function Adopted(sh: Shape, d: Disk): Registry
    requires ShapeOk(sh) && DiskOk(sh, d)
  {
    Init(sh, d).reg
  }

  // ---- commits ----

  function Target(ram: Ram): (c: nat)
    requires |ram.valid| == 2 && ram.newest < 2
    ensures c < 2
  {
    if ram.valid[ram.newest] then 1 - ram.newest else 0
  }

  function NextImage(ram: Ram, reg: Registry): Image
    requires |ram.valid| == |ram.wear| == 2 && ram.newest < 2
  {
    Image(Wrap32(ram.gen + 1), Wrap32(ram.wear[Target(ram)] as int + 1), reg)
  }

  // A registry region that was erased and then written with the image.
  function Region(sh: Shape, img: Image): (r: seq<u8>)
    requires ShapeOk(sh) && Fits(img.reg, sh.slots)
    ensures |r| == sh.registrySize
  {
    Built(img, sh.page) + Erased(sh.registrySize - |Built(img, sh.page)|)
  }

  lemma RegionLoads(sh: Shape, img: Image)
    requires ShapeOk(sh) && Fits(img.reg, sh.slots)
    ensures Load(Region(sh, img), sh.page, sh.slots) == Some(img)
  {
    hide Load, Built, RoundUp;
    PageWithin(ImgSize(sh.slots), sh.page);
    BuiltLoads(img, sh.page, Erased(sh.registrySize - |Built(img, sh.page)|));
  }

  lemma PageWithin(v: nat, page: nat)
    requires v > 0 && page > 0
    ensures page <= RoundUp(v, page)
  {
    var r := RoundUp(v, page);
    assert r == r / page * page;
  }

  // ---- payloads ----

  // The slot holds the record's payload complete.
  predicate PayloadOk(slot: seq<u8>, rec: Record) {
    && SYNM_HDR + FlashSize(rec) as int <= |slot|
    && Crc(slot[SYNM_HDR..SYNM_HDR + FlashSize(rec)]) == RecordCrc(rec)
  }

  ghost predicate Backed(slots: seq<seq<u8>>, reg: Registry) {
    && |reg.occupied| == |reg.recs| == |slots|
    && forall s :: 0 <= s < |slots| && reg.occupied[s] ==> PayloadOk(slots[s], reg.recs[s])
  }

  // A record enters the registry only after its payload was read back and checked.
  predicate Checked(slots: seq<seq<u8>>, op: Op) {
    match op
    case Stage(s, rec) => s < |slots| && PayloadOk(slots[s], rec)
    case Install(s, rec) => s < |slots| && PayloadOk(slots[s], rec)
    case _ => true
  }

  // ---- the machine ----

  datatype State = Off(disk: Disk) | On(disk: Disk, ram: Ram)

  datatype Event =
    | Boot
    | Cut
    | Commit(op: Op)
    | Torn(op: Op, left: seq<u8>, wear: u32, cut: bool)  // a commit that failed or lost power
    | Program(slot: u8, data: seq<u8>)                   // any erasing or programming of a free slot

  predicate StateOk(sh: Shape, st: State) {
    ShapeOk(sh) && DiskOk(sh, st.disk) && (st.On? ==> RamOk(sh, st.ram))
  }

  ghost predicate Commits(sh: Shape, st: State, op: Op)
    requires StateOk(sh, st)
  {
    && st.On?
    && Allowed(st.ram.reg, op) && Fits(Apply(st.ram.reg, op), sh.slots)
    && Checked(st.disk.slots, op)
    && st.ram.gen < 0xFFFF_FFFF
  }

  ghost predicate Enabled(sh: Shape, st: State, e: Event)
    requires StateOk(sh, st)
  {
    match e
    case Boot => st.Off?
    case Cut => st.On?
    case Commit(op) => Commits(sh, st, op)
    case Torn(op, left, _, _) => Commits(sh, st, op) && |left| == sh.registrySize
    case Program(s, data) => st.On? && s < sh.slots && !st.ram.reg.occupied[s] && |data| == sh.slotSize
  }

  // The commit's new state when it completes.
  function Committed(sh: Shape, d: Disk, ram: Ram, reg: Registry): (st: State)
    requires ShapeOk(sh) && DiskOk(sh, d) && RamOk(sh, ram) && Fits(reg, sh.slots)
    ensures StateOk(sh, st)
  {
    var c := Target(ram);
    var img := NextImage(ram, reg);
    On(d.(copies := d.copies[c := Region(sh, img)]),
       Ram(reg, img.gen, ram.wear[c := img.wear], ram.valid[c := true], c))
  }

  // The commit failed: the registry in RAM is restored, the copy holds anything.
  function Failed(sh: Shape, d: Disk, ram: Ram, left: seq<u8>, wear: u32): (st: State)
    requires ShapeOk(sh) && DiskOk(sh, d) && RamOk(sh, ram) && |left| == sh.registrySize
    ensures StateOk(sh, st)
  {
    var c := Target(ram);
    On(d.(copies := d.copies[c := left]), ram.(wear := ram.wear[c := wear], valid := ram.valid[c := false]))
  }

  function Next(sh: Shape, st: State, e: Event): (after: State)
    requires StateOk(sh, st) && Enabled(sh, st, e)
    ensures StateOk(sh, after)
  {
    match e
    case Boot => ScanFits(sh, st.disk); On(st.disk, Init(sh, st.disk))
    case Cut => Off(st.disk)
    case Commit(op) => Committed(sh, st.disk, st.ram, Apply(st.ram.reg, op))
    case Torn(_, left, wear, cut) =>
      var f := Failed(sh, st.disk, st.ram, left, wear);
      if cut then Off(f.disk) else f
    case Program(s, data) => On(st.disk.(slots := st.disk.slots[s := data]), st.ram)
  }

  lemma ScanFits(sh: Shape, d: Disk)
    requires ShapeOk(sh) && DiskOk(sh, d)
    ensures RamOk(sh, Init(sh, d))
  {
    hide Load;
    if Found(sh, d, 0).Some? {
      LoadedFits(d.copies[0], sh.page, sh.slots);
    }
    if Found(sh, d, 1).Some? {
      LoadedFits(d.copies[1], sh.page, sh.slots);
    }
  }

  ghost predicate Possible(sh: Shape, st: State, run: seq<Event>)
    requires StateOk(sh, st)
    decreases |run|
  {
    run == [] || (Enabled(sh, st, run[0]) && Possible(sh, Next(sh, st, run[0]), run[1..]))
  }

  function Run(sh: Shape, st: State, run: seq<Event>): (after: State)
    requires StateOk(sh, st) && Possible(sh, st, run)
    ensures StateOk(sh, after)
    decreases |run|
  {
    if run == [] then st else Run(sh, Next(sh, st, run[0]), run[1..])
  }

  // The hypothesis on torn copies: what is left does not validate, or is what was there,
  // or is the whole new image.
  ghost predicate TearShows(sh: Shape, st: State, e: Event)
    requires StateOk(sh, st) && Enabled(sh, st, e)
  {
    e.Torn? ==>
      var after := Load(e.left, sh.page, sh.slots);
      || after == Option.None
      || after == Found(sh, st.disk, Target(st.ram))
      || after == Some(NextImage(st.ram, Apply(st.ram.reg, e.op)))
  }

  ghost predicate TearsShow(sh: Shape, st: State, run: seq<Event>)
    requires StateOk(sh, st) && Possible(sh, st, run)
    decreases |run|
  {
    run == [] || (TearShows(sh, st, run[0]) && TearsShow(sh, Next(sh, st, run[0]), run[1..]))
  }

  // What has been made durable, and what was attempted since without success.
  datatype Past = Past(held: Registry, tried: seq<Registry>)

  function Recall(sh: Shape, st: State, e: Event, p: Past): Past
    requires StateOk(sh, st) && Enabled(sh, st, e)
  {
    match e
    case Boot => Past(Adopted(sh, st.disk), [])
    case Commit(op) => Past(Apply(st.ram.reg, op), [])
    case Torn(op, _, _, _) => Past(p.held, p.tried + [Apply(st.ram.reg, op)])
    case _ => p
  }

  function PastOf(sh: Shape, st: State, run: seq<Event>, p: Past): Past
    requires StateOk(sh, st) && Possible(sh, st, run)
    decreases |run|
  {
    if run == [] then p else PastOf(sh, Next(sh, st, run[0]), run[1..], Recall(sh, st, run[0], p))
  }

  // ---- the invariant ----

  ghost predicate NoTie(a: Option<Image>, b: Option<Image>) {
    a.Some? && b.Some? ==> a.value.gen != b.value.gen
  }

  ghost predicate NoTieOn(sh: Shape, d: Disk)
    requires ShapeOk(sh) && DiskOk(sh, d)
  {
    NoTie(Found(sh, d, 0), Found(sh, d, 1))
  }

  // What may stand in the copy that does not hold the committed registry.
  ghost predicate Other(o: Option<Image>, gen: nat, tried: seq<Registry>) {
    o.Some? ==> o.value.gen < gen || (o.value.gen == gen + 1 && o.value.reg in tried)
  }

  ghost predicate Holding(f: seq<Option<Image>>, ram: Ram, tried: seq<Registry>)
    requires |f| == |ram.valid| == 2 && ram.newest < 2
  {
    if ram.valid[ram.newest] then
      && f[ram.newest].Some? && f[ram.newest].value.gen == ram.gen && f[ram.newest].value.reg == ram.reg
      && Other(f[1 - ram.newest], ram.gen, tried)
    else
      && ram.newest == 0 && ram.gen == 0 && ram.reg == Empty(|ram.reg.occupied|)
      && f[1].None? && Other(f[0], 0, tried)
  }

  function Copies(sh: Shape, d: Disk): (f: seq<Option<Image>>)
    requires ShapeOk(sh) && DiskOk(sh, d)
    ensures |f| == 2
  {
    [Found(sh, d, 0), Found(sh, d, 1)]
  }

  ghost predicate PastOk(slots: nat, p: Past) {
    RolesOk(p.held, slots) && forall r :: r in p.tried ==> RolesOk(r, slots)
  }

  ghost predicate Inv(sh: Shape, st: State, p: Past)
    requires StateOk(sh, st)
  {
    && PastOk(sh.slots, p)
    && match st
       case Off(d) => NoTieOn(sh, d) && (Adopted(sh, d) == p.held || Adopted(sh, d) in p.tried)
       case On(d, ram) => ram.reg == p.held && Holding(Copies(sh, d), ram, p.tried)
  }

  // What a scan of copies in this situation adopts.
  lemma ScanOfHolding(f: seq<Option<Image>>, ram: Ram, tried: seq<Registry>)
    requires |f| == |ram.valid| == 2 && ram.newest < 2 && Holding(f, ram, tried)
    ensures NoTie(f[0], f[1])
    ensures var r := Scan(|ram.reg.occupied|, f[0], f[1]).reg; r == ram.reg || r in tried
    ensures tried == [] && ram.valid[ram.newest] ==> Newest(f[0], f[1]) == Some(ram.newest)
  {
  }

  lemma HoldingAfterScan(slots: nat, a: Option<Image>, b: Option<Image>)
    requires NoTie(a, b)
    ensures Holding([a, b], Scan(slots, a, b), [])
  {
  }

  lemma HoldingAfterCommit(f: seq<Option<Image>>, ram: Ram, tried: seq<Registry>, reg: Registry, ram': Ram)
    requires |f| == |ram.valid| == |ram.wear| == 2 && ram.newest < 2 && ram.gen < 0xFFFF_FFFF
    requires Holding(f, ram, tried)
    requires var c, img := Target(ram), NextImage(ram, reg);
             ram' == Ram(reg, img.gen, ram.wear[c := img.wear], ram.valid[c := true], c)
    ensures Holding(f[Target(ram) := Some(NextImage(ram, reg))], ram', [])
  {
    Unwrapped(ram.gen + 1);
    hide Wrap32;
  }

  // More than the attempts made may be named; the older ones need to be only when the
  // copy is as it was.
  lemma HoldingAfterTear(f: seq<Option<Image>>, ram: Ram, tried: seq<Registry>, reg: Registry, left: Option<Image>,
                         wear: u32, now: seq<Registry>)
    requires |f| == |ram.valid| == |ram.wear| == 2 && ram.newest < 2 && ram.gen < 0xFFFF_FFFF
    requires Holding(f, ram, tried) && reg in now
    requires left == Option.None || left == Some(NextImage(ram, reg)) ||
             (left == f[Target(ram)] && forall r :: r in tried ==> r in now)
    ensures var c := Target(ram);
            Holding(f[c := left], ram.(wear := ram.wear[c := wear], valid := ram.valid[c := false]), now)
  {
    Unwrapped(ram.gen + 1);
    hide Wrap32;
  }

  lemma StepKeepsInv(sh: Shape, st: State, e: Event, p: Past)
    requires StateOk(sh, st) && Enabled(sh, st, e) && Inv(sh, st, p) && TearShows(sh, st, e)
    ensures Inv(sh, Next(sh, st, e), Recall(sh, st, e, p))
  {
    match e
    case Boot => BootKeepsInv(sh, st, p);
    case Cut => CutKeepsInv(sh, st, p);
    case Commit(op) => CommitKeepsInv(sh, st, op, p);
    case Torn(op, _, _, _) => TearKeepsInv(sh, st, e, p, Past(p.held, p.tried + [Apply(st.ram.reg, op)]));
    case Program(s, data) => ProgramKeepsInv(sh, st, s, data, p);
  }

  lemma BootKeepsInv(sh: Shape, st: State, p: Past)
    requires StateOk(sh, st) && st.Off? && Inv(sh, st, p)
    ensures Inv(sh, Next(sh, st, Boot), Past(Adopted(sh, st.disk), []))
  {
    hide Load, Scan, RolesOk;
    HoldingAfterScan(sh.slots, Found(sh, st.disk, 0), Found(sh, st.disk, 1));
  }

  lemma CutKeepsInv(sh: Shape, st: State, p: Past)
    requires StateOk(sh, st) && st.On? && Inv(sh, st, p)
    ensures Inv(sh, Off(st.disk), p)
  {
    hide Load, Scan, Holding, RolesOk;
    ScanOfHolding(Copies(sh, st.disk), st.ram, p.tried);
  }

  lemma CopyReplaced(sh: Shape, d: Disk, c: nat, region: seq<u8>)
    requires ShapeOk(sh) && DiskOk(sh, d) && c < 2 && |region| == sh.registrySize
    ensures var after := d.(copies := d.copies[c := region]);
            DiskOk(sh, after) && Copies(sh, after) == Copies(sh, d)[c := Load(region, sh.page, sh.slots)]
  {
    hide Load;
  }

  lemma CommitKeepsInv(sh: Shape, st: State, op: Op, p: Past)
    requires StateOk(sh, st) && Enabled(sh, st, Commit(op)) && Inv(sh, st, p)
    ensures Inv(sh, Next(sh, st, Commit(op)), Past(Apply(st.ram.reg, op), []))
  {
    var reg := Apply(st.ram.reg, op);
    ApplyKeepsRoles(st.ram.reg, op, sh.slots);
    hide Apply, RolesOk, Load, Region, Holding, Allowed, Fits, Checked;
    var img := NextImage(st.ram, reg);
    RegionLoads(sh, img);
    CopyReplaced(sh, st.disk, Target(st.ram), Region(sh, img));
    var after := Committed(sh, st.disk, st.ram, reg);
    hide Copies;
    HoldingAfterCommit(Copies(sh, st.disk), st.ram, p.tried, reg, after.ram);
  }

  // What the copy may hold after e.
  ghost predicate Covers(sh: Shape, st: State, e: Event, p: Past, q: Past)
    requires StateOk(sh, st) && Enabled(sh, st, e) && e.Torn?
  {
    && var reg := Apply(st.ram.reg, e.op);
       var left := Load(e.left, sh.page, sh.slots);
    && q.held == p.held && reg in q.tried
    && (forall r :: r in q.tried ==> r in p.tried || r == reg)
    && (|| left == Option.None
        || left == Some(NextImage(st.ram, reg))
        || (left == Found(sh, st.disk, Target(st.ram)) && forall r :: r in p.tried ==> r in q.tried))
  }

  lemma TearKeepsInv(sh: Shape, st: State, e: Event, p: Past, q: Past)
    requires StateOk(sh, st) && Enabled(sh, st, e) && Inv(sh, st, p) && e.Torn?
    requires Covers(sh, st, e, p, q)
    ensures Inv(sh, Next(sh, st, e), q)
  {
    var reg := Apply(st.ram.reg, e.op);
    ApplyKeepsRoles(st.ram.reg, e.op, sh.slots);
    hide Apply, RolesOk, Load, Region, Holding, Allowed, Fits, Checked, Scan;
    var after := Failed(sh, st.disk, st.ram, e.left, e.wear);
    var f := Load(e.left, sh.page, sh.slots);
    CopyReplaced(sh, st.disk, Target(st.ram), e.left);
    assert Copies(sh, st.disk)[Target(st.ram)] == Found(sh, st.disk, Target(st.ram));
    hide Copies;
    HoldingAfterTear(Copies(sh, st.disk), st.ram, p.tried, reg, f, e.wear, q.tried);
    assert Inv(sh, after, q);
    CutKeepsInv(sh, after, q);
  }

  lemma ProgramKeepsInv(sh: Shape, st: State, s: u8, data: seq<u8>, p: Past)
    requires StateOk(sh, st) && Enabled(sh, st, Program(s, data)) && Inv(sh, st, p)
    ensures Inv(sh, Next(sh, st, Program(s, data)), p)
  {
    hide Load, Holding, RolesOk;
    assert Copies(sh, Next(sh, st, Program(s, data)).disk) == Copies(sh, st.disk);
  }

  lemma {:induction false} RunKeepsInv(sh: Shape, st: State, run: seq<Event>, p: Past)
    requires StateOk(sh, st) && Possible(sh, st, run) && TearsShow(sh, st, run) && Inv(sh, st, p)
    ensures Inv(sh, Run(sh, st, run), PastOf(sh, st, run, p))
    decreases |run|
  {
    hide Inv, Enabled, Next, Recall;
    if run != [] {
      StepKeepsInv(sh, st, run[0], p);
      RunKeepsInv(sh, Next(sh, st, run[0]), run[1..], Recall(sh, st, run[0], p));
    }
  }

  // ---- power-loss atomicity ----

  ghost predicate Fresh(sh: Shape, d: Disk) {
    ShapeOk(sh) && DiskOk(sh, d) && NoTieOn(sh, d) && RolesOk(Adopted(sh, d), sh.slots)
  }

  ghost function Remembered(sh: Shape, d: Disk, run: seq<Event>): Past
    requires Fresh(sh, d) && Possible(sh, Off(d), run)
  {
    PastOf(sh, Off(d), run, Past(Adopted(sh, d), []))
  }

  // A factory-fresh store: erased copies adopt the empty registry.
  lemma ErasedIsFresh(sh: Shape, d: Disk)
    requires ShapeOk(sh) && DiskOk(sh, d) && d.copies == [Erased(sh.registrySize), Erased(sh.registrySize)]
    ensures Fresh(sh, d) && Adopted(sh, d) == Empty(sh.slots) && Backed(d.slots, Adopted(sh, d))
  {
    assert BlankAt(Erased(sh.registrySize), 0, sh.page);
    assert Found(sh, d, 0).None? && Found(sh, d, 1).None?;
    hide Load;
  }

  // However often power is cut, and wherever inside a commit, the next boot adopts the
  // registry last committed or one attempted since, whole; generations never tie; while
  // running, the copy about to be erased is not the one that holds what was committed.
  // Throughout, no slot has two roles and no role points at an empty slot.
  lemma PowerLossAtomicity(sh: Shape, d: Disk, run: seq<Event>)
    requires Fresh(sh, d) && Possible(sh, Off(d), run) && TearsShow(sh, Off(d), run)
    ensures var p, st := Remembered(sh, d, run), Run(sh, Off(d), run);
            && NoTieOn(sh, st.disk)
            && (Adopted(sh, st.disk) == p.held || Adopted(sh, st.disk) in p.tried)
            && PastOk(sh.slots, p)
            && (st.On? ==> st.ram.reg == p.held)
            && (st.On? && st.ram.valid[st.ram.newest] ==>
                  Target(st.ram) != st.ram.newest &&
                  Found(sh, st.disk, st.ram.newest).Some? &&
                  Found(sh, st.disk, st.ram.newest).value.reg == p.held)
  {
    var p, st := Remembered(sh, d, run), Run(sh, Off(d), run);
    hide RolesOk, Load, Scan, Possible, TearsShow, Run, PastOf;
    RunKeepsInv(sh, Off(d), run, Past(Adopted(sh, d), []));
    if st.On? {
      CutKeepsInv(sh, st, p);
    }
  }

  // A commit that fails after another one failed has at least destroyed what that left.
  ghost predicate Erases(sh: Shape, st: State, e: Event, p: Past)
    requires StateOk(sh, st) && Enabled(sh, st, e)
  {
    e.Torn? && p.tried != [] ==>
      var left := Load(e.left, sh.page, sh.slots);
      left == Option.None || left == Some(NextImage(st.ram, Apply(st.ram.reg, e.op)))
  }

  ghost predicate ErasesThroughout(sh: Shape, st: State, run: seq<Event>, p: Past)
    requires StateOk(sh, st) && Possible(sh, st, run)
    decreases |run|
  {
    run == [] ||
    (Erases(sh, st, run[0], p) && ErasesThroughout(sh, Next(sh, st, run[0]), run[1..], Recall(sh, st, run[0], p)))
  }

  // The last attempt alone.
  function Latest(p: Past): Past {
    if p.tried == [] then p else Past(p.held, [p.tried[|p.tried| - 1]])
  }

  lemma StepKeepsLatest(sh: Shape, st: State, e: Event, p: Past)
    requires StateOk(sh, st) && Enabled(sh, st, e) && Inv(sh, st, Latest(p)) && TearShows(sh, st, e)
    requires Erases(sh, st, e, p)
    ensures Inv(sh, Next(sh, st, e), Latest(Recall(sh, st, e, p)))
  {
    hide Inv, Next, Load, Apply, Allowed, Fits, Checked;
    if e.Torn? {
      TearKeepsInv(sh, st, e, Latest(p), Latest(Recall(sh, st, e, p)));
    } else {
      StepKeepsInv(sh, st, e, Latest(p));
    }
  }

  lemma {:induction false} RunKeepsLatest(sh: Shape, st: State, run: seq<Event>, p: Past)
    requires StateOk(sh, st) && Possible(sh, st, run) && TearsShow(sh, st, run) && ErasesThroughout(sh, st, run, p)
    requires Inv(sh, st, Latest(p))
    ensures Inv(sh, Run(sh, st, run), Latest(PastOf(sh, st, run, p)))
    decreases |run|
  {
    hide Inv, Enabled, Next, Recall, Latest;
    if run != [] {
      StepKeepsLatest(sh, st, run[0], p);
      RunKeepsLatest(sh, Next(sh, st, run[0]), run[1..], Recall(sh, st, run[0], p));
    }
  }

  // The choice of the next boot is between two, the state before the interrupted commit
  // and the state after it, as soon as one commit failed at most, or every failed commit
  // that follows another has erased what that left. And while no commit has failed the
  // newest valid copy in flash is the one that is not erased.
  lemma BeforeOrAfter(sh: Shape, d: Disk, run: seq<Event>)
    requires Fresh(sh, d) && Possible(sh, Off(d), run) && TearsShow(sh, Off(d), run)
    ensures var p, st := Remembered(sh, d, run), Run(sh, Off(d), run);
            && (|p.tried| <= 1 || ErasesThroughout(sh, Off(d), run, Past(Adopted(sh, d), [])) ==>
                  Adopted(sh, st.disk) == p.held || (p.tried != [] && Adopted(sh, st.disk) == p.tried[|p.tried| - 1]))
            && (st.On? && p.tried == [] && st.ram.valid[st.ram.newest] ==>
                  Newest(Found(sh, st.disk, 0), Found(sh, st.disk, 1)) == Some(st.ram.newest))
  {
    var p, st := Remembered(sh, d, run), Run(sh, Off(d), run);
    var start := Past(Adopted(sh, d), []);
    if ErasesThroughout(sh, Off(d), run, start) {
      LatestIsAdopted(sh, d, run);
    }
    hide Possible, TearsShow, Run, PastOf, Fresh, Adopted, RolesOk, Load, ErasesThroughout;
    PowerLossAtomicity(sh, d, run);
    if |p.tried| <= 1 {
      OneTry(p.tried, Adopted(sh, st.disk));
    }
    if st.On? && p.tried == [] && st.ram.valid[st.ram.newest] {
      hide Newest, Target, NoTie;
      HeldIsNewest(sh, d, run);
    }
  }

  lemma LatestIsAdopted(sh: Shape, d: Disk, run: seq<Event>)
    requires Fresh(sh, d) && Possible(sh, Off(d), run) && TearsShow(sh, Off(d), run)
    requires ErasesThroughout(sh, Off(d), run, Past(Adopted(sh, d), []))
    ensures var p, st := Remembered(sh, d, run), Run(sh, Off(d), run);
            Adopted(sh, st.disk) == p.held || (p.tried != [] && Adopted(sh, st.disk) == p.tried[|p.tried| - 1])
  {
    var p, st := Remembered(sh, d, run), Run(sh, Off(d), run);
    hide RolesOk, Load, Scan, Possible, TearsShow, Run, PastOf, ErasesThroughout;
    RunKeepsLatest(sh, Off(d), run, Past(Adopted(sh, d), []));
    if st.On? {
      CutKeepsInv(sh, st, Latest(p));
    }
  }

  lemma OneTry<T>(tried: seq<T>, x: T)
    requires |tried| <= 1
    ensures x in tried ==> tried == [x]
  {
  }

  lemma HeldIsNewest(sh: Shape, d: Disk, run: seq<Event>)
    requires Fresh(sh, d) && Possible(sh, Off(d), run) && TearsShow(sh, Off(d), run)
    requires var p, st := Remembered(sh, d, run), Run(sh, Off(d), run);
             st.On? && p.tried == [] && st.ram.valid[st.ram.newest]
    ensures var st := Run(sh, Off(d), run);
            Newest(Found(sh, st.disk, 0), Found(sh, st.disk, 1)) == Some(st.ram.newest)
  {
    hide RolesOk, Load, Scan, Possible, TearsShow, Run, PastOf, Holding, Newest;
    var p, st := Remembered(sh, d, run), Run(sh, Off(d), run);
    RunKeepsInv(sh, Off(d), run, Past(Adopted(sh, d), []));
    ScanOfHolding(Copies(sh, st.disk), st.ram, p.tried);
  }

  // ---- payload completeness ----

  // The registry that counts: the one in RAM, or the one the next boot adopts.
  function InForce(sh: Shape, st: State): Registry
    requires StateOk(sh, st)
  {
    if st.On? then st.ram.reg else Adopted(sh, st.disk)
  }

  lemma ApplyKeepsBacked(slots: seq<seq<u8>>, reg: Registry, op: Op)
    requires Backed(slots, reg) && Allowed(reg, op) && Checked(slots, op)
    ensures Backed(slots, Apply(reg, op))
  {
    hide PayloadOk, RollbackTarget;
  }

  ghost predicate AllBacked(slots: seq<seq<u8>>, p: Past) {
    Backed(slots, p.held) && forall r :: r in p.tried ==> Backed(slots, r)
  }

  // What erases or programs a slot leaves alone those that a failed commit has named.
  ghost predicate Spares(e: Event, p: Past) {
    e.Program? ==> forall r :: r in p.tried ==> !Occupied(r, e.slot)
  }

  ghost predicate SparesThroughout(sh: Shape, st: State, run: seq<Event>, p: Past)
    requires StateOk(sh, st) && Possible(sh, st, run)
    decreases |run|
  {
    run == [] ||
    (Spares(run[0], p) && SparesThroughout(sh, Next(sh, st, run[0]), run[1..], Recall(sh, st, run[0], p)))
  }

  // Programming a slot keeps a registry backed exactly when the slot is not one of its
  // own, or what goes there is its payload.
  lemma ProgramKeepsBackedIff(slots: seq<seq<u8>>, reg: Registry, s: nat, data: seq<u8>)
    requires Backed(slots, reg) && s < |slots|
    ensures Backed(slots[s := data], reg) <==> (reg.occupied[s] ==> PayloadOk(data, reg.recs[s]))
  {
    hide PayloadOk;
    if Backed(slots[s := data], reg) && reg.occupied[s] {
      assert PayloadOk(slots[s := data][s], reg.recs[s]);
    }
  }

  lemma StepKeepsBacked(sh: Shape, st: State, e: Event, p: Past)
    requires StateOk(sh, st) && Enabled(sh, st, e) && Inv(sh, st, p) && Spares(e, p)
    requires AllBacked(st.disk.slots, p)
    ensures AllBacked(Next(sh, st, e).disk.slots, Recall(sh, st, e, p))
  {
    hide PayloadOk, Holding, Load, Region, NoTieOn;
    match e
    case Boot =>
      hide Backed, Init;
    case Cut =>
      hide Backed;
    case Commit(op) =>
      ApplyKeepsBacked(st.disk.slots, st.ram.reg, op);
      hide Backed, Apply, NextImage;
    case Torn(op, left, wear, cut) =>
      ApplyKeepsBacked(st.disk.slots, st.ram.reg, op);
      hide Backed, Apply, Target;
    case Program(s, data) =>
      ProgramKeepsAll(st.disk.slots, p, s, data);
      hide Backed;
  }

  lemma ProgramKeepsAll(slots: seq<seq<u8>>, p: Past, s: nat, data: seq<u8>)
    requires AllBacked(slots, p) && s < |slots| && !p.held.occupied[s]
    requires forall r :: r in p.tried ==> !r.occupied[s]
    ensures AllBacked(slots[s := data], p)
  {
    hide PayloadOk;
  }

  lemma {:induction false} RunKeepsBacked(sh: Shape, st: State, run: seq<Event>, p: Past)
    requires StateOk(sh, st) && Possible(sh, st, run) && TearsShow(sh, st, run) && SparesThroughout(sh, st, run, p)
    requires Inv(sh, st, p) && AllBacked(st.disk.slots, p)
    ensures AllBacked(Run(sh, st, run).disk.slots, PastOf(sh, st, run, p))
    decreases |run|
  {
    hide Inv, Enabled, Next, Recall, AllBacked, Spares, TearShows;
    if run != [] {
      StepKeepsInv(sh, st, run[0], p);
      StepKeepsBacked(sh, st, run[0], p);
      RunKeepsBacked(sh, Next(sh, st, run[0]), run[1..], Recall(sh, st, run[0], p));
    }
  }

  // Every adopted registry is backed by complete payloads: at every point of every run in
  // which no slot named by a failed commit is written before a commit succeeds or power
  // is cycled, each occupied slot of the registry in force holds bytes whose checksum is
  // the record's.
  lemma PayloadsComplete(sh: Shape, d: Disk, run: seq<Event>)
    requires Fresh(sh, d) && Possible(sh, Off(d), run) && TearsShow(sh, Off(d), run)
    requires SparesThroughout(sh, Off(d), run, Past(Adopted(sh, d), []))
    requires Backed(d.slots, Adopted(sh, d))
    ensures var st := Run(sh, Off(d), run); Backed(st.disk.slots, InForce(sh, st))
  {
    var p := Past(Adopted(sh, d), []);
    hide Backed, Possible, TearsShow, SparesThroughout, Run, PastOf, Load, Scan, RolesOk, Init;
    RunKeepsInv(sh, Off(d), run, p);
    RunKeepsBacked(sh, Off(d), run, p);
  }

  // ---- wear ----

  // How many of the run's commits went to copy c.
  function CommitsTo(sh: Shape, st: State, run: seq<Event>, c: nat): nat
    requires StateOk(sh, st) && Possible(sh, st, run)
    decreases |run|
  {
    if run == [] then 0
    else Wears(sh, st, run[0], c) + CommitsTo(sh, Next(sh, st, run[0]), run[1..], c)
  }

  function Wears(sh: Shape, st: State, e: Event, c: nat): nat
    requires StateOk(sh, st) && Enabled(sh, st, e)
  {
    if e.Commit? && Target(st.ram) == c then 1 else 0
  }

  // Each copy, and the count in RAM, says how often it was written.
  ghost predicate WornBy(sh: Shape, st: State, n: nat, c: nat)
    requires StateOk(sh, st) && c < 2
  {
    WearOf(Found(sh, st.disk, c)) == n && (st.On? ==> st.ram.wear[c] == n)
  }

  // What a completed commit leaves in the copies.
  lemma CommittedCopies(sh: Shape, d: Disk, ram: Ram, reg: Registry)
    requires ShapeOk(sh) && DiskOk(sh, d) && RamOk(sh, ram) && Fits(reg, sh.slots)
    ensures var after := Committed(sh, d, ram, reg);
            && after.On? && DiskOk(sh, after.disk)
            && Copies(sh, after.disk) == Copies(sh, d)[Target(ram) := Some(NextImage(ram, reg))]
            && after.ram.wear == ram.wear[Target(ram) := NextImage(ram, reg).wear]
  {
    assert NextImage(ram, reg).reg == reg;
    hide Load, Region, NextImage, Copies, Target, ShapeOk, Fits;
    RegionLoads(sh, NextImage(ram, reg));
    CopyReplaced(sh, d, Target(ram), Region(sh, NextImage(ram, reg)));
  }

  lemma FoundIsCopy(sh: Shape, d: Disk, c: nat)
    requires ShapeOk(sh) && DiskOk(sh, d) && c < 2
    ensures Copies(sh, d)[c] == Found(sh, d, c)
  {
    hide Found;
  }

  lemma CommitWears(sh: Shape, d: Disk, ram: Ram, reg: Registry, n: nat, c: nat)
    requires ShapeOk(sh) && DiskOk(sh, d) && RamOk(sh, ram) && Fits(reg, sh.slots) && c < 2 && n < 0xFFFF_FFFF
    requires WornBy(sh, On(d, ram), n, c)
    ensures WornBy(sh, Committed(sh, d, ram, reg), n + if Target(ram) == c then 1 else 0, c)
  {
    hide Load, Fits, Region, ShapeOk, DiskOk, Committed, Copies, Found, Target;
    var after := Committed(sh, d, ram, reg);
    CommittedCopies(sh, d, ram, reg);
    FoundIsCopy(sh, d, c);
    FoundIsCopy(sh, after.disk, c);
    Unwrapped(n + 1);
    hide Wrap32;
    if c == Target(ram) {
      assert Found(sh, after.disk, c) == Some(NextImage(ram, reg));
      assert NextImage(ram, reg).wear == n + 1;
    }
  }

  lemma StepWears(sh: Shape, st: State, e: Event, n: nat, c: nat)
    requires StateOk(sh, st) && Enabled(sh, st, e) && !e.Torn? && c < 2 && WornBy(sh, st, n, c) && n < 0xFFFF_FFFF
    ensures WornBy(sh, Next(sh, st, e), n + Wears(sh, st, e, c), c)
  {
    assert e.Commit? ==> Applies(st.ram.reg, e.op);
    hide Load, Apply, Applies, Allowed, Checked, ShapeOk, Target;
    match e
    case Commit(op) =>
      hide Committed, WornBy, Fits;
      CommitWears(sh, st.disk, st.ram, Apply(st.ram.reg, op), n, c);
    case Boot =>
    case Cut =>
    case Program(_, _) =>
  }

  lemma WearsAtMostOne(sh: Shape, st: State, e: Event, c: nat)
    requires StateOk(sh, st) && Enabled(sh, st, e)
    ensures Wears(sh, st, e, c) <= 1
  {
  }

  // Over any run without failed commits the persisted wear of a copy is the number of
  // times it was erased and written, power cycles or not.
  lemma {:induction false} WearCountsCommits(sh: Shape, st: State, run: seq<Event>, n: nat, c: nat)
    requires StateOk(sh, st) && Possible(sh, st, run) && c < 2 && WornBy(sh, st, n, c)
    requires n + |run| < 0x1_0000_0000 && forall i :: 0 <= i < |run| ==> !run[i].Torn?
    ensures WornBy(sh, Run(sh, st, run), n + CommitsTo(sh, st, run, c), c)
    decreases |run|
  {
    hide WornBy, Enabled, Next, Wears;
    if run != [] {
      StepWears(sh, st, run[0], n, c);
      WearsAtMostOne(sh, st, run[0], c);
      WearCountsCommits(sh, Next(sh, st, run[0]), run[1..], n + Wears(sh, st, run[0], c), c);
    }
  }

  // ---- stopping at the first failure ----

  // Every commit that does not complete is followed by a restart.
  ghost predicate FailStop(run: seq<Event>) {
    forall i :: 0 <= i < |run| && run[i].Torn? ==> run[i].cut
  }

  ghost predicate AtMostOneTry(st: State, p: Past) {
    |p.tried| <= if st.On? then 0 else 1
  }

  // Such a run meets both conditions above.
  lemma {:induction false} FailStopIsEnough(sh: Shape, st: State, run: seq<Event>, p: Past)
    requires StateOk(sh, st) && Possible(sh, st, run) && FailStop(run) && AtMostOneTry(st, p)
    ensures ErasesThroughout(sh, st, run, p) && SparesThroughout(sh, st, run, p)
    ensures AtMostOneTry(Run(sh, st, run), PastOf(sh, st, run, p))
    decreases |run|
  {
    hide Next, Recall, AtMostOneTry, Enabled, Erases, Spares;
    if run != [] {
      assert run[0].Torn? ==> run[0].cut;
      NoTryIsSafe(sh, st, run[0], p);
      RecallKeepsTries(sh, st, run[0], p);
      FailStopIsEnough(sh, Next(sh, st, run[0]), run[1..], Recall(sh, st, run[0], p));
    }
  }

  lemma NoTryIsSafe(sh: Shape, st: State, e: Event, p: Past)
    requires StateOk(sh, st) && Enabled(sh, st, e) && AtMostOneTry(st, p)
    ensures Erases(sh, st, e, p) && Spares(e, p)
  {
    hide Load, Apply, Fits, Allowed, Checked, NextImage;
  }

  lemma RecallKeepsTries(sh: Shape, st: State, e: Event, p: Past)
    requires StateOk(sh, st) && Enabled(sh, st, e) && AtMostOneTry(st, p) && (e.Torn? ==> e.cut)
    ensures AtMostOneTry(Next(sh, st, e), Recall(sh, st, e, p))
  {
    hide Init, Adopted, Apply, Fits, Allowed, Checked, Region, NextImage;
  }

  // ---- extending a run ----

  ghost predicate Reaches(sh: Shape, st: State, run: seq<Event>, after: State)
    requires StateOk(sh, st)
  {
    Possible(sh, st, run) && Run(sh, st, run) == after
  }

  lemma {:induction false} OneMore(sh: Shape, st: State, run: seq<Event>, mid: State, e: Event)
    requires StateOk(sh, st) && Reaches(sh, st, run, mid) && Enabled(sh, mid, e)
    ensures Reaches(sh, st, run + [e], Next(sh, mid, e))
    decreases |run|
  {
    hide Enabled, Next;
    if run == [] {
      assert [e][1..] == [];
      assert Possible(sh, Next(sh, mid, e), []) && Run(sh, Next(sh, mid, e), []) == Next(sh, mid, e);
      assert run + [e] == [e];
    } else {
      OneMore(sh, Next(sh, st, run[0]), run[1..], mid, e);
      assert (run + [e])[0] == run[0] && (run + [e])[1..] == run[1..] + [e];
    }
  }

  // The outcome of a commit call as a machine step: it completes, or it fails and the
  // registry in RAM is as before.
  ghost predicate Attempted(sh: Shape, d: Disk, ram: Ram, reg: Registry, after: State, err: Option<Errno>)
    requires ShapeOk(sh) && DiskOk(sh, d) && RamOk(sh, ram) && Fits(reg, sh.slots)
  {
    if err.None? then after == Committed(sh, d, ram, reg)
    else
      && StateOk(sh, after) && after.On?
      && after == Failed(sh, d, ram, after.disk.copies[Target(ram)], after.ram.wear[Target(ram)])
  }

  function AttemptEvent(ram: Ram, op: Op, after: State, err: Option<Errno>): Event
    requires |ram.valid| == 2 && ram.newest < 2 && after.On? && |after.disk.copies| == |after.ram.wear| == 2
  {
    if err.None? then Commit(op)
    else Torn(op, after.disk.copies[Target(ram)], after.ram.wear[Target(ram)], false)
  }

  lemma AttemptIsStep(sh: Shape, st: State, op: Op, after: State, err: Option<Errno>)
    requires StateOk(sh, st) && Commits(sh, st, op)
    requires Attempted(sh, st.disk, st.ram, Apply(st.ram.reg, op), after, err)
    ensures after.On? && StateOk(sh, after)
    ensures Enabled(sh, st, AttemptEvent(st.ram, op, after, err))
    ensures Next(sh, st, AttemptEvent(st.ram, op, after, err)) == after
  {
    hide Apply, Allowed, Fits, Checked, Region;
  }

  // What a call leaves: nothing changed, or the outcome of its commit.
  ghost predicate Outcome(sh: Shape, st: State, dec: Decision, after: State, err: Option<Errno>) {
    && StateOk(sh, st) && st.On? && StateOk(sh, after) && after.On?
    && match dec
       case Refuse(e) => err == Some(e) && after == st
       case Nothing => err.None? && after == st
       case Do(op) =>
         Applies(st.ram.reg, op) && Fits(Apply(st.ram.reg, op), sh.slots) &&
         Attempted(sh, st.disk, st.ram, Apply(st.ram.reg, op), after, err)
  }

  lemma {:induction false} RunsJoin(sh: Shape, st: State, run: seq<Event>, mid: State, more: seq<Event>, after: State)
    requires StateOk(sh, st) && Reaches(sh, st, run, mid) && Reaches(sh, mid, more, after)
    ensures Reaches(sh, st, run + more, after)
    decreases |run|
  {
    hide Enabled, Next;
    if run == [] {
      assert run + more == more;
    } else {
      RunsJoin(sh, Next(sh, st, run[0]), run[1..], mid, more, after);
      assert (run + more)[0] == run[0] && (run + more)[1..] == run[1..] + more;
    }
  }

  // A call whose decision the machine allows is a run of at most one step.
  lemma OutcomeIsRun(sh: Shape, st: State, dec: Decision, after: State, err: Option<Errno>) returns (run: seq<Event>)
    requires Outcome(sh, st, dec, after, err) && st.ram.gen < 0xFFFF_FFFF
    requires dec.Do? ==> Allowed(st.ram.reg, dec.op) && Checked(st.disk.slots, dec.op)
    ensures Reaches(sh, st, run, after) && after.ram.gen <= st.ram.gen + 1
  {
    run := [];
    if dec.Do? {
      var op := dec.op;
      Unwrapped(st.ram.gen + 1);
      hide Allowed, Fits, Reaches, Region, Wrap32, Checked;
      AttemptIsStep(sh, st, op, after, err);
      OneStep(sh, st, AttemptEvent(st.ram, op, after, err));
      run := [AttemptEvent(st.ram, op, after, err)];
    }
  }

  // begin_staging, when it succeeds, leaves the slot free; it is at most one commit.
  lemma StagingIsRun(sh: Shape, st: State, slot: u8, dropped: Option<Errno>, after: State, err: Option<Errno>)
    returns (run: seq<Event>)
    requires StateOk(sh, st) && st.On? && st.ram.gen < 0xFFFF_FFFF && slot < sh.slots
    requires Outcome(sh, st, OnBeginStaging(st.ram.reg, slot, dropped), after, err)
    ensures Reaches(sh, st, run, after) && after.ram.gen <= st.ram.gen + 1
    ensures err.None? ==>
              && after.ram.reg == Freed(st.ram.reg, slot)
              && !after.ram.reg.occupied[slot] && slot != after.ram.reg.active
  {
    run := OutcomeIsRun(sh, st, OnBeginStaging(st.ram.reg, slot, dropped), after, err);
    hide Fits, Region, Reaches;
  }

  lemma OneStep(sh: Shape, st: State, e: Event)
    requires StateOk(sh, st) && Enabled(sh, st, e)
    ensures Reaches(sh, st, [e], Next(sh, st, e))
  {
    hide Enabled, Next;
    assert [e][1..] == [];
    assert Possible(sh, Next(sh, st, e), []) && Run(sh, Next(sh, st, e), []) == Next(sh, st, e);
  }

  // ---- the active model is never lost ----

  ghost predicate ActiveThroughout(p: Past) {
    p.held.active != NONE && forall r :: r in p.tried ==> r.active != NONE
  }

  lemma StepKeepsActive(sh: Shape, st: State, e: Event, p: Past)
    requires StateOk(sh, st) && Enabled(sh, st, e) && Inv(sh, st, p) && ActiveThroughout(p)
    ensures ActiveThroughout(Recall(sh, st, e, p))
  {
    hide Apply, Allowed, Holding, RolesOk, Load, Init, Fits, Checked;
    match e
    case Commit(op) => ApplyKeepsActive(st.ram.reg, op);
    case Torn(op, _, _, _) => ApplyKeepsActive(st.ram.reg, op);
    case _ =>
  }

  // Once some model is active, every registry adopted or committed later has an active
  // model, in any run from there.
  lemma {:induction false} ActiveNeverLost(sh: Shape, st: State, run: seq<Event>, p: Past)
    requires StateOk(sh, st) && Possible(sh, st, run) && TearsShow(sh, st, run)
    requires Inv(sh, st, p) && ActiveThroughout(p)
    ensures InForce(sh, Run(sh, st, run)).active != NONE
    decreases |run|
  {
    if run == [] {
      hide Adopted, Holding;
    } else {
      hide Inv, Enabled, Next, Recall, ActiveThroughout, InForce;
      StepKeepsInv(sh, st, run[0], p);
      StepKeepsActive(sh, st, run[0], p);
      ActiveNeverLost(sh, Next(sh, st, run[0]), run[1..], Recall(sh, st, run[0], p));
    }
  }
}
