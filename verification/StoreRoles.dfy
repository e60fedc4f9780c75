// What the store operations do to the registry: the roles of the slots and the records.
module StoreRoles {
  import opened Errno
  import opened Bytes
  import opened StoreImage

  datatype Op =
    | Evict(slot: u8)
    | Stage(slot: u8, rec: Record)
    | Activate(slot: u8)
    | Rollback
    | ClearStaged
    | Install(slot: u8, rec: Record)

  function Empty(slots: nat): Registry {
    Registry(NONE, NONE, NONE, seq(slots, _ => false), seq(slots, _ => NO_RECORD))
  }

  predicate Occupied(reg: Registry, slot: u8) {
    slot < |reg.occupied| && reg.occupied[slot]
  }

  // ---- rollback target ----

  // The last slot below k that is occupied, not active and not staged.
  function LastCandidate(reg: Registry, k: nat): u8
    requires k <= |reg.occupied| <= MAX_SLOTS
  {
    if k == 0 then NONE
    else if reg.occupied[k - 1] && k - 1 != reg.active && k - 1 != reg.staged then k - 1
    else LastCandidate(reg, k - 1)
  }

  predicate HasPivot(reg: Registry) {
    reg.prev != NONE && reg.prev != reg.active && Occupied(reg, reg.prev)
  }

  function RollbackTarget(reg: Registry): u8
    requires |reg.occupied| <= MAX_SLOTS
  {
    if HasPivot(reg) then reg.prev else LastCandidate(reg, |reg.occupied|)
  }

  lemma {:induction false} CandidateFits(reg: Registry, k: nat)
    requires k <= |reg.occupied| <= MAX_SLOTS
    ensures var c := LastCandidate(reg, k);
            c == NONE || (c < k && reg.occupied[c] && c != reg.active && c != reg.staged)
    ensures LastCandidate(reg, k) == NONE ==>
      forall s: u8 :: s < k && reg.occupied[s] ==> s == reg.active || s == reg.staged
  {
    if k > 0 {
      CandidateFits(reg, k - 1);
    }
  }

  // ---- the operations ----

  function SetBit(reg: Registry, slot: u8, on: bool): seq<bool>
    requires slot < |reg.occupied|
  {
    reg.occupied[slot := on]
  }

  function Evicted(reg: Registry, slot: u8): Registry
    requires slot < |reg.occupied|
  {
    reg.(occupied := SetBit(reg, slot, false),
         staged := if reg.staged == slot then NONE else reg.staged,
         prev := if reg.prev == slot then NONE else reg.prev)
  }

  function Staged(reg: Registry, slot: u8, rec: Record): Registry
    requires slot < |reg.occupied| == |reg.recs|
  {
    reg.(occupied := SetBit(reg, slot, true), recs := reg.recs[slot := rec], staged := slot)
  }

  function Activated(reg: Registry, slot: u8): Registry {
    reg.(active := slot, prev := reg.active, staged := if reg.staged == slot then NONE else reg.staged)
  }

  function RolledBack(reg: Registry): Registry
    requires |reg.occupied| <= MAX_SLOTS
  {
    reg.(active := RollbackTarget(reg), prev := reg.active)
  }

  function Unstaged(reg: Registry): Registry
    requires reg.staged < |reg.occupied|
  {
    reg.(occupied := SetBit(reg, reg.staged, false), staged := NONE)
  }

  function Installed(reg: Registry, slot: u8, rec: Record): Registry
    requires slot < |reg.occupied| == |reg.recs|
  {
    reg.(occupied := SetBit(reg, slot, true), recs := reg.recs[slot := rec],
         staged := if reg.staged == slot then NONE else reg.staged,
         active := slot, prev := if reg.active == slot then reg.prev else reg.active)
  }

  // What begin_staging makes of the registry.
  function Freed(reg: Registry, slot: u8): Registry
    requires slot < |reg.occupied|
  {
    if reg.occupied[slot] then Evicted(reg, slot) else reg
  }

  // The slot an operation names exists.
  predicate Applies(reg: Registry, op: Op) {
    && |reg.occupied| == |reg.recs| <= MAX_SLOTS
    && match op
       case Evict(s) => s < |reg.occupied|
       case Stage(s, _) => s < |reg.occupied|
       case Activate(s) => s < |reg.occupied|
       case Rollback => true
       case ClearStaged => reg.staged < |reg.occupied|
       case Install(s, _) => s < |reg.occupied|
  }

  function Apply(reg: Registry, op: Op): Registry
    requires Applies(reg, op)
  {
    match op
    case Evict(s) => Evicted(reg, s)
    case Stage(s, rec) => Staged(reg, s, rec)
    case Activate(s) => Activated(reg, s)
    case Rollback => RolledBack(reg)
    case ClearStaged => Unstaged(reg)
    case Install(s, rec) => Installed(reg, s, rec)
  }

  // When an operation reaches its commit: what its own guards require and, for Stage and
  // Install, that begin_staging freed the slot first.
  predicate Allowed(reg: Registry, op: Op) {
    && Applies(reg, op)
    && match op
       case Evict(s) => reg.occupied[s] && s != reg.active
       case Stage(s, _) => !reg.occupied[s] && s != reg.active
       case Activate(s) => reg.occupied[s] && s != reg.active
       case Rollback => RollbackTarget(reg) != NONE
       case ClearStaged => true
       case Install(s, _) => !reg.occupied[s] && s != reg.active
  }

  // ---- the role invariant ----

  predicate RoleOk(reg: Registry, role: u8) {
    role == NONE || Occupied(reg, role)
  }

  predicate RolesOk(reg: Registry, slots: nat) {
    && |reg.occupied| == |reg.recs| == slots <= MAX_SLOTS
    && RoleOk(reg, reg.active) && RoleOk(reg, reg.prev) && RoleOk(reg, reg.staged)
    && (reg.active == NONE || (reg.active != reg.prev && reg.active != reg.staged))
    && (reg.prev == NONE || reg.prev != reg.staged)
  }

  // Every operation leaves each role empty or on an occupied slot, and no slot with two
  // roles.
  lemma ApplyKeepsRoles(reg: Registry, op: Op, slots: nat)
    requires RolesOk(reg, slots) && Allowed(reg, op)
    ensures RolesOk(Apply(reg, op), slots)
  {
    if op.Rollback? {
      CandidateFits(reg, |reg.occupied|);
    }
  }

  // No operation loses the active model.
  lemma ApplyKeepsActive(reg: Registry, op: Op)
    requires Allowed(reg, op) && (reg.active != NONE || op.Activate? || op.Install? || op.Rollback?)
    ensures Apply(reg, op).active != NONE
  {
  }

  // Two rollbacks restore the registry exactly when there was an active model and a
  // recorded pivot.
  lemma TwoRollbacks(reg: Registry, slots: nat)
    requires RolesOk(reg, slots)
    requires RollbackTarget(reg) != NONE && RollbackTarget(RolledBack(reg)) != NONE
    ensures RolledBack(RolledBack(reg)) == reg <==> reg.active != NONE && reg.prev != NONE
  {
    CandidateFits(reg, slots);
  }

  // ---- what each operation leaves, role by role ----

  function Unless(role: u8, slot: u8): u8 {
    if role == slot then NONE else role
  }

  // s could be rolled back to, and no later slot could.
  ghost predicate IsLastCandidate(reg: Registry, s: nat) {
    && s < |reg.occupied| && reg.occupied[s] && s != reg.active && s != reg.staged
    && forall t :: s < t < |reg.occupied| ==> !reg.occupied[t] || t == reg.active || t == reg.staged
  }

  ghost predicate Means(op: Op, before: Registry, after: Registry) {
    match op
    case Evict(s) =>
      && s < |before.occupied|
      && after.active == before.active
      && after.prev == Unless(before.prev, s) && after.staged == Unless(before.staged, s)
      && after.occupied == before.occupied[s := false] && after.recs == before.recs
    case Stage(s, rec) =>
      && s < |before.occupied| == |before.recs|
      && after.active == before.active && after.prev == before.prev && after.staged == s
      && after.occupied == before.occupied[s := true] && after.recs == before.recs[s := rec]
    case Activate(s) =>
      && after.active == s && after.prev == before.active && after.staged == Unless(before.staged, s)
      && after.occupied == before.occupied && after.recs == before.recs
    case Rollback =>
      && after.prev == before.active && after.staged == before.staged
      && after.occupied == before.occupied && after.recs == before.recs
      && if before.prev != NONE && before.prev != before.active && Occupied(before, before.prev)
         then after.active == before.prev else IsLastCandidate(before, after.active)
    case ClearStaged =>
      && before.staged < |before.occupied|
      && after.active == before.active && after.prev == before.prev && after.staged == NONE
      && after.occupied == before.occupied[before.staged := false] && after.recs == before.recs
    case Install(s, rec) =>
      && s < |before.occupied| == |before.recs|
      && after.active == s && after.staged == Unless(before.staged, s)
      && after.prev == (if before.active == s then before.prev else before.active)
      && after.occupied == before.occupied[s := true] && after.recs == before.recs[s := rec]
  }

  lemma {:induction false} LastCandidateIsLast(reg: Registry, k: nat)
    requires k <= |reg.occupied| <= MAX_SLOTS
    ensures var c := LastCandidate(reg, k);
            if c == NONE then forall t :: 0 <= t < k ==> !reg.occupied[t] || t == reg.active || t == reg.staged
            else c < k && reg.occupied[c] && c != reg.active && c != reg.staged &&
                 forall t :: c < t < k ==> !reg.occupied[t] || t == reg.active || t == reg.staged
  {
    if k > 0 {
      LastCandidateIsLast(reg, k - 1);
    }
  }

  // These words say exactly what the operation makes of the registry.
  lemma MeansIff(op: Op, before: Registry, after: Registry)
    requires Allowed(before, op)
    ensures Means(op, before, after) <==> after == Apply(before, op)
  {
    if op.Rollback? {
      LastCandidateIsLast(before, |before.occupied|);
      hide LastCandidate;
    }
  }

  lemma AppliedMeans(op: Op, reg: Registry)
    requires Applies(reg, op) && (op.Rollback? ==> RollbackTarget(reg) != NONE)
    ensures Means(op, reg, Apply(reg, op))
  {
    if op.Rollback? {
      LastCandidateIsLast(reg, |reg.occupied|);
      hide LastCandidate;
    }
  }

  // Activating another model makes the old active one the pivot, so a rollback right
  // after brings it back, and the new one is then what a second rollback goes to.
  lemma ActivateThenRollback(reg: Registry, s: u8, slots: nat)
    requires RolesOk(reg, slots) && Allowed(reg, Activate(s))
    ensures var mid := Apply(reg, Activate(s));
            && mid.active == s && mid.prev == reg.active
            && (reg.active != NONE ==>
                  && Allowed(mid, Rollback)
                  && var back := Apply(mid, Rollback);
                     && back.active == reg.active && back.prev == s
                     && back.staged == Unless(reg.staged, s)
                     && back.occupied == reg.occupied && back.recs == reg.recs)
  {
  }

  lemma InstallThenRollback(reg: Registry, s: u8, rec: Record, slots: nat)
    requires RolesOk(reg, slots) && Allowed(reg, Install(s, rec))
    ensures var mid := Apply(reg, Install(s, rec));
            && mid.active == s && mid.prev == reg.active && mid.recs[s] == rec && mid.occupied[s]
            && (reg.active != NONE ==>
                  && Allowed(mid, Rollback)
                  && var back := Apply(mid, Rollback);
                     && back.active == reg.active && back.prev == s && back.staged == reg.staged
                     && back.occupied == reg.occupied[s := true] && back.recs == reg.recs[s := rec])
  {
  }

  // Staging and clearing leave every other slot and role as they were.
  lemma StageThenClear(reg: Registry, s: u8, rec: Record, slots: nat)
    requires RolesOk(reg, slots) && Allowed(reg, Stage(s, rec))
    ensures var mid := Apply(reg, Stage(s, rec));
            && mid.staged == s && mid.occupied[s] && mid.recs[s] == rec && Allowed(mid, ClearStaged)
            && var clear := Apply(mid, ClearStaged);
               && clear.staged == NONE && clear.active == reg.active && clear.prev == reg.prev
               && clear.occupied == reg.occupied
               && forall t :: 0 <= t < |reg.recs| && t != s ==> clear.recs[t] == reg.recs[t]
  {
    assert reg.occupied[s := true][s := false] == reg.occupied;
  }

  // An evicted slot is free, has no role, and is the only one that changed.
  lemma EvictedIsFree(reg: Registry, s: u8, slots: nat)
    requires RolesOk(reg, slots) && Allowed(reg, Evict(s))
    ensures var after := Apply(reg, Evict(s));
            && !after.occupied[s] && s != after.active && s != after.prev && s != after.staged
            && after.active == reg.active && after.recs == reg.recs
            && (forall t :: 0 <= t < slots && t != s ==> after.occupied[t] == reg.occupied[t])
            && (reg.prev != s ==> after.prev == reg.prev) && (reg.staged != s ==> after.staged == reg.staged)
  {
  }

  // ---- the staging choice ----

  // The first slot satisfying each preference in turn: free; neither active nor pivot;
  // not active.
  ghost predicate FirstWhere(p: nat -> bool, slot: nat, slots: nat) {
    slot < slots && p(slot) && forall s :: 0 <= s < slot ==> !p(s)
  }

  ghost predicate NoneWhere(p: nat -> bool, slots: nat) {
    forall s :: 0 <= s < slots ==> !p(s)
  }

  function Free(reg: Registry): nat -> bool {
    (s: nat) => s < |reg.occupied| && !reg.occupied[s]
  }

  function RoleFree(reg: Registry): nat -> bool {
    s => s != reg.active && s != reg.prev
  }

  function NotActive(reg: Registry): nat -> bool {
    s => s != reg.active
  }

  ghost predicate StagingChoice(reg: Registry, slot: nat) {
    var n := |reg.occupied|;
    || FirstWhere(Free(reg), slot, n)
    || (NoneWhere(Free(reg), n) && FirstWhere(RoleFree(reg), slot, n))
    || (NoneWhere(Free(reg), n) && NoneWhere(RoleFree(reg), n) && FirstWhere(NotActive(reg), slot, n))
  }

  // The staging choice is never the active slot, is unique, and is the rollback pivot
  // only when there is no third slot to take.
  lemma StagingChoiceSafe(reg: Registry, slot: nat, other: nat)
    requires RolesOk(reg, |reg.occupied|) && 2 <= |reg.occupied| && StagingChoice(reg, slot)
    requires StagingChoice(reg, other)
    ensures slot != reg.active && slot == other
    ensures slot == reg.prev ==> |reg.occupied| == 2
  {
    if |reg.occupied| > 2 {
      ThirdSlot(reg);
    }
    assert slot == reg.prev ==> !Free(reg)(slot) && !RoleFree(reg)(slot);
  }

  lemma StagingExists(reg: Registry)
    requires |reg.occupied| >= 2
    ensures !NoneWhere(NotActive(reg), |reg.occupied|)
  {
    var other: nat := if reg.active != 0 then 0 else 1;
    assert NotActive(reg)(other);
  }

  lemma ThirdSlot(reg: Registry)
    requires |reg.occupied| > 2
    ensures !NoneWhere(RoleFree(reg), |reg.occupied|)
  {
    var third: nat := if reg.active != 0 && reg.prev != 0 then 0 else if reg.active != 1 && reg.prev != 1 then 1 else 2;
    assert RoleFree(reg)(third);
  }

  // ---- what each call decides before it touches flash ----

  // Refuse the call, succeed without doing anything, or commit the registry an operation
  // leads to.
  datatype Decision = Refuse(error: Errno) | Nothing | Do(op: Op)

  // dropped is what dropping the slot's model from the RAM registry answered.
  function OnBeginStaging(reg: Registry, slot: u8, dropped: Option<Errno>): Decision {
    if slot >= |reg.occupied| then Refuse(EINVAL)
    else if slot == reg.active then Refuse(EBUSY)
    else if !reg.occupied[slot] then Nothing
    else if dropped.Some? then Refuse(dropped.value)
    else Do(Evict(slot))
  }

  function OnMarkStaged(reg: Registry, slot: u8, info: Record): Decision {
    if slot >= |reg.occupied| then Refuse(EINVAL)
    else if slot == reg.active then Refuse(EBUSY)
    else Do(Stage(slot, info))
  }

  // held says that the outgoing active model is loaded and cannot give up the NPU.
  function OnActivate(reg: Registry, slot: u8, held: bool): Decision {
    if slot >= |reg.occupied| then Refuse(EINVAL)
    else if !reg.occupied[slot] then Refuse(ENOENT)
    else if slot == reg.active then Refuse(EALREADY)
    else if reg.active != NONE && held then Refuse(EBUSY)
    else Do(Activate(slot))
  }

  function OnRollback(reg: Registry, held: bool): Decision
    requires |reg.occupied| <= MAX_SLOTS
  {
    if RollbackTarget(reg) == NONE then Refuse(ENOENT)
    else if reg.active != NONE && held then Refuse(EBUSY)
    else Do(Rollback)
  }

  function OnClearStaged(reg: Registry): Decision {
    if reg.staged == NONE then Nothing else Do(ClearStaged)
  }

  // When each call goes on to its commit.
  lemma CommitsIff(reg: Registry, slot: u8, info: Record, dropped: Option<Errno>, held: bool)
    requires |reg.occupied| == |reg.recs| <= MAX_SLOTS
    ensures OnBeginStaging(reg, slot, dropped) == Do(Evict(slot)) <==>
            slot < |reg.occupied| && slot != reg.active && reg.occupied[slot] && dropped.None?
    ensures OnBeginStaging(reg, slot, dropped) == Nothing <==>
            slot < |reg.occupied| && slot != reg.active && !reg.occupied[slot]
    ensures OnMarkStaged(reg, slot, info) == Do(Stage(slot, info)) <==> slot < |reg.occupied| && slot != reg.active
    ensures OnActivate(reg, slot, held) == Do(Activate(slot)) <==>
            slot < |reg.occupied| && slot != reg.active && reg.occupied[slot] && (reg.active == NONE || !held)
    ensures OnRollback(reg, held) == Do(Rollback) <==>
            (reg.active == NONE || !held) &&
            exists t: nat :: t < |reg.occupied| && reg.occupied[t] && t != reg.active &&
                             (t == reg.prev || t != reg.staged)
    ensures OnClearStaged(reg) == Do(ClearStaged) <==> reg.staged != NONE
  {
    LastCandidateIsLast(reg, |reg.occupied|);
    hide LastCandidate;
    if HasPivot(reg) {
      var t: nat := reg.prev;
      assert t < |reg.occupied| && reg.occupied[t] && t != reg.active && (t == reg.prev || t != reg.staged);
    } else if LastCandidate(reg, |reg.occupied|) != NONE {
      var t: nat := LastCandidate(reg, |reg.occupied|);
      assert t < |reg.occupied| && reg.occupied[t] && t != reg.active && (t == reg.prev || t != reg.staged);
    }
  }

  // A call that goes on to its commit is one the machine allows; MarkStaged is the one
  // that relies on its caller to have freed the slot.
  lemma DecidedIsAllowed(reg: Registry, d: Decision, slot: u8, info: Record, dropped: Option<Errno>, held: bool)
    requires |reg.occupied| == |reg.recs| <= MAX_SLOTS && Fits(reg, |reg.occupied|) && d.Do?
    requires || d == OnBeginStaging(reg, slot, dropped)
             || (d == OnMarkStaged(reg, slot, info) && !reg.occupied[slot])
             || d == OnActivate(reg, slot, held)
             || d == OnRollback(reg, held)
             || d == OnClearStaged(reg)
    ensures Allowed(reg, d.op) && Fits(Apply(reg, d.op), |reg.occupied|)
  {
    CandidateFits(reg, |reg.occupied|);
  }
}
