// The single-producer single-consumer message ring between the two cores.
//
// The state machine splits push and pop into their single accesses to shared memory,
// word by word for the message copies, and lets them interleave in any order; the
// barriers of the C code make that order the one both cores observe. The class below it
// has the calls as the unit tests use them, one at a time.
module IpcRing {
  import opened Errno
  import opened Bytes

  const MSG_WORDS := 5
  const WRAP := 0x1_0000_0000

  type Msg = m: seq<u32> | |m| == MSG_WORDS witness [0, 0, 0, 0, 0]

  // ---- index arithmetic ----

  function WrapAdd(a: u32, k: nat): u32 {
    (a + k) % WRAP
  }

  function WrapSub(a: u32, b: u32): u32 {
    (a - b) % WRAP
  }

  lemma ModPlusMultiple(x: nat, y: nat, n: nat)
    requires n > 0
    ensures (x + y * n) % n == x % n
  {
    var q, r := x / n, x % n;
    assert x == q * n + r;
    assert x + y * n == (q + y) * n + r;
    DivModUnique(x + y * n, n, q + y, r);
  }

  // A free-running counter kept modulo 2^32 selects the slot of the true count,
  // because the entry count divides 2^32.
  lemma SlotOfWrapped(i: nat, n: nat)
    requires n > 0 && WRAP % n == 0
    ensures (i % WRAP) % n == i % n
  {
    var p, q := WRAP / n, i / WRAP;
    assert WRAP == p * n;
    assert i == i % WRAP + q * WRAP;
    assert q * WRAP == (q * p) * n by {
      assert q * (p * n) == (q * p) * n;
    }
    ModPlusMultiple(i % WRAP, q * p, n);
  }

  lemma WindowDistinct(i: nat, j: nat, n: nat)
    requires i < j < i + n
    ensures i % n != j % n
  {
    var d := j / n - i / n;
    assert j - i == d * n + (j % n - i % n);
    assert d >= 1 ==> d * n >= n;
    assert d <= 0 ==> d * n <= 0;
  }

  lemma WrappedDifference(h: nat, t: nat)
    requires t <= h < t + WRAP
    ensures WrapSub(h % WRAP, t % WRAP) == h - t
  {
  }

  lemma WrappedSuccessor(h: nat)
    ensures WrapAdd(h % WRAP, 1) == (h + 1) % WRAP
  {
  }

  lemma WrappedSum(t: nat, k: nat)
    ensures WrapAdd(t % WRAP, k) == (t + k) % WRAP
  {
    ModPlusMultiple(t % WRAP + k, t / WRAP, WRAP);
    assert t % WRAP + k + t / WRAP * WRAP == t + k;
  }

  lemma CountUp(h: u32, t: u32)
    requires WrapSub(h, t) < WRAP - 1
    ensures WrapSub(WrapAdd(h, 1), t) == WrapSub(h, t) + 1
    ensures WrapAdd(t, WrapSub(h, t)) == h
  {
  }

  lemma CountZero(h: u32)
    ensures WrapSub(h, h) == 0
  {
  }

  lemma CountDown(h: u32, t: u32, i: nat)
    requires h != t
    ensures WrapSub(h, t) > 0 && WrapSub(h, WrapAdd(t, 1)) == WrapSub(h, t) - 1
    ensures WrapAdd(WrapAdd(t, 1), i) == WrapAdd(t, i + 1)
    ensures WrapAdd(t, 0) == t
  {
  }

  // ---- the interleaved state machine ----

  datatype Ring = Ring(head: u32, tail: u32, slots: seq<seq<u32>>)

  // Where push is: it has read head, or it has also seen room and copied k words.
  datatype Producer = ProducerIdle | HasHead(m: Msg, h: u32) | Filling(m: Msg, h: u32, k: nat)

  // Where pop is: it has read tail, or it has also seen a message and copied k words.
  datatype Consumer = ConsumerIdle | HasTail(t: u32) | Draining(t: u32, copied: seq<u32>)

  // pushed and popped record the messages of the calls that returned 0.
  datatype State = State(ring: Ring, prod: Producer, cons: Consumer, pushed: seq<Msg>, popped: seq<Msg>)

  predicate Shape(n: nat, r: Ring) {
    |r.slots| == n && forall s :: 0 <= s < n ==> |r.slots[s]| == MSG_WORDS
  }

  datatype Step = PushReadHead(m: Msg) | PushReadTail | PushWord | PushPublish
                | PopReadTail | PopReadHead | PopWord | PopPublish

  predicate Enabled(s: State, step: Step) {
    match step
    case PushReadHead(_) => s.prod.ProducerIdle?
    case PushReadTail => s.prod.HasHead?
    case PushWord => s.prod.Filling? && s.prod.k < MSG_WORDS
    case PushPublish => s.prod.Filling? && s.prod.k == MSG_WORDS
    case PopReadTail => s.cons.ConsumerIdle?
    case PopReadHead => s.cons.HasTail?
    case PopWord => s.cons.Draining? && |s.cons.copied| < MSG_WORDS
    case PopPublish => s.cons.Draining? && |s.cons.copied| == MSG_WORDS
  }

  function SetWord(r: Ring, slot: nat, k: nat, w: u32): Ring
    requires slot < |r.slots| && k < |r.slots[slot]|
  {
    var row: seq<u32> := r.slots[slot];
    var updated: seq<u32> := row[..k] + [w] + row[k + 1..];
    r.(slots := r.slots[slot := updated])
  }

  function Do(n: nat, s: State, step: Step): (s': State)
    requires n > 0 && Shape(n, s.ring) && Enabled(s, step)
    ensures Shape(n, s'.ring)
  {
    match step
    case PushReadHead(m) => s.(prod := HasHead(m, s.ring.head))
    case PushReadTail =>
      if WrapSub(s.prod.h, s.ring.tail) >= n then s.(prod := ProducerIdle)
      else s.(prod := Filling(s.prod.m, s.prod.h, 0))
    case PushWord =>
      s.(ring := SetWord(s.ring, s.prod.h % n, s.prod.k, s.prod.m[s.prod.k]),
         prod := s.prod.(k := s.prod.k + 1))
    case PushPublish =>
      s.(ring := s.ring.(head := WrapAdd(s.prod.h, 1)), prod := ProducerIdle, pushed := s.pushed + [s.prod.m])
    case PopReadTail => s.(cons := HasTail(s.ring.tail))
    case PopReadHead =>
      if s.ring.head == s.cons.t then s.(cons := ConsumerIdle) else s.(cons := Draining(s.cons.t, []))
    case PopWord =>
      s.(cons := s.cons.(copied := s.cons.copied + [s.ring.slots[s.cons.t % n][|s.cons.copied|]]))
    case PopPublish =>
      s.(ring := s.ring.(tail := WrapAdd(s.cons.t, 1)), cons := ConsumerIdle, popped := s.popped + [s.cons.copied])
  }

  ghost predicate CountersOk(n: nat, s: State) {
    && 0 < n < WRAP && WRAP % n == 0 && Shape(n, s.ring)
    && |s.popped| <= |s.pushed| <= |s.popped| + n
    && s.ring.head == |s.pushed| % WRAP
    && s.ring.tail == |s.popped| % WRAP
    && s.popped == s.pushed[..|s.popped|]
  }

  // Every unread message is intact in its slot.
  ghost predicate QueueOk(n: nat, s: State)
    requires n > 0 && Shape(n, s.ring)
  {
    forall i :: |s.popped| <= i < |s.pushed| ==> s.ring.slots[i % n] == s.pushed[i]
  }

  ghost predicate ProducerOk(n: nat, s: State)
    requires n > 0 && Shape(n, s.ring)
  {
    match s.prod
    case ProducerIdle => true
    case HasHead(_, h) => h == s.ring.head
    case Filling(m, h, k) =>
      && h == s.ring.head && k <= MSG_WORDS && |s.pushed| < |s.popped| + n
      && forall j :: 0 <= j < k ==> s.ring.slots[|s.pushed| % n][j] == m[j]
  }

  ghost predicate ConsumerOk(s: State) {
    match s.cons
    case ConsumerIdle => true
    case HasTail(t) => t == s.ring.tail
    case Draining(t, copied) =>
      && t == s.ring.tail && |s.popped| < |s.pushed| && |copied| <= MSG_WORDS
      && copied == s.pushed[|s.popped|][..|copied|]
  }

  ghost predicate Inv(n: nat, s: State) {
    CountersOk(n, s) && QueueOk(n, s) && ProducerOk(n, s) && ConsumerOk(s)
  }

  lemma PushKeepsInv(n: nat, s: State, step: Step)
    requires Inv(n, s) && Enabled(s, step)
    requires step.PushReadHead? || step.PushReadTail? || step.PushWord? || step.PushPublish?
    ensures Inv(n, Do(n, s, step))
  {
    var h, t := |s.pushed|, |s.popped|;
    var s' := Do(n, s, step);
    SlotOfWrapped(h, n);
    match step
    case PushReadHead(_) =>
    case PushReadTail => WrappedDifference(h, t);
    case PushWord =>
      forall i | t <= i < h ensures s'.ring.slots[i % n] == s.pushed[i] {
        WindowDistinct(i, h, n);
      }
    case PushPublish =>
      WrappedSuccessor(h);
      assert s'.ring.slots[h % n] == s.prod.m;
  }

  lemma PopKeepsInv(n: nat, s: State, step: Step)
    requires Inv(n, s) && Enabled(s, step)
    requires step.PopReadTail? || step.PopReadHead? || step.PopWord? || step.PopPublish?
    ensures Inv(n, Do(n, s, step))
  {
    var t := |s.popped|;
    SlotOfWrapped(t, n);
    match step
    case PopReadTail =>
    case PopReadHead =>
      if s.ring.head != s.cons.t {
        assert |s.pushed| != t;
      }
    case PopWord =>
      assert s.ring.slots[t % n] == s.pushed[t];
    case PopPublish =>
      WrappedSuccessor(t);
      assert s.cons.copied == s.pushed[t];
      assert Do(n, s, step).popped == s.pushed[..t + 1];
  }

  lemma StepKeepsInv(n: nat, s: State, step: Step)
    requires Inv(n, s) && Enabled(s, step)
    ensures Inv(n, Do(n, s, step))
  {
    if step.PushReadHead? || step.PushReadTail? || step.PushWord? || step.PushPublish? {
      PushKeepsInv(n, s, step);
    } else {
      PopKeepsInv(n, s, step);
    }
  }

  // ---- runs ----

  ghost predicate IsRun(n: nat, run: seq<State>, steps: seq<Step>)
    requires n > 0
  {
    && |run| == |steps| + 1
    && (forall i :: 0 <= i < |run| ==> Shape(n, run[i].ring))
    && forall i :: 0 <= i < |steps| ==> Enabled(run[i], steps[i]) && run[i + 1] == Do(n, run[i], steps[i])
  }

  // After reset: both counters zero and both sides idle.
  predicate Initial(n: nat, s: State) {
    && Shape(n, s.ring) && s.ring.head == 0 && s.ring.tail == 0
    && s.prod.ProducerIdle? && s.cons.ConsumerIdle? && s.pushed == [] && s.popped == []
  }

  lemma {:induction false} RunKeepsInv(n: nat, run: seq<State>, steps: seq<Step>, i: nat)
    requires 0 < n < WRAP && WRAP % n == 0 && IsRun(n, run, steps) && i < |run|
    requires Initial(n, run[0])
    ensures Inv(n, run[i])
  {
    if i > 0 {
      RunKeepsInv(n, run, steps, i - 1);
      StepKeepsInv(n, run[i - 1], steps[i - 1]);
    }
  }

  // The messages the indices describe as queued.
  function Queued(n: nat, r: Ring): (q: seq<seq<u32>>)
    requires n > 0 && Shape(n, r)
    ensures |q| == WrapSub(r.head, r.tail)
  {
    seq(WrapSub(r.head, r.tail), i requires 0 <= i => r.slots[WrapAdd(r.tail, i) % n])
  }

  lemma QueuedEntry(n: nat, s: State, k: nat)
    requires Inv(n, s) && |s.popped| + k < |s.pushed|
    ensures s.ring.slots[WrapAdd(s.ring.tail, k) % n] == s.pushed[|s.popped| + k]
  {
    hide WrapAdd, ProducerOk, ConsumerOk;
    var i := |s.popped| + k;
    SlotOfWrapped(i, n);
    WrappedSum(|s.popped|, k);
    assert s.ring.slots[i % n] == s.pushed[i];
  }

  // FIFO through every interleaving and every wraparound of the indices: what was
  // popped followed by what is queued is what was pushed, and never more than n.
  lemma RingIsFifo(n: nat, run: seq<State>, steps: seq<Step>, i: nat)
    requires 0 < n < WRAP && WRAP % n == 0 && IsRun(n, run, steps) && Initial(n, run[0]) && i < |run|
    ensures WrapSub(run[i].ring.head, run[i].ring.tail) <= n
    ensures run[i].popped + Queued(n, run[i].ring) == run[i].pushed
  {
    hide WrapAdd, WrapSub, IsRun, QueueOk, ProducerOk, ConsumerOk;
    var s := run[i];
    RunKeepsInv(n, run, steps, i);
    var t := |s.popped|;
    WrappedDifference(|s.pushed|, t);
    var q := Queued(n, s.ring);
    forall k | 0 <= k < |q| ensures q[k] == s.pushed[t + k] {
      QueuedEntry(n, s, k);
    }
    assert s.pushed == s.pushed[..t] + s.pushed[t..];
    assert q == s.pushed[t..];
  }

  // While one side copies into a slot the other never reads it, and the message a pop
  // hands out is a whole pushed message even though it was copied word by word.
  lemma NoSlotSharedWhileCopying(n: nat, run: seq<State>, steps: seq<Step>, i: nat)
    requires 0 < n < WRAP && WRAP % n == 0 && IsRun(n, run, steps) && Initial(n, run[0]) && i < |run|
    ensures run[i].prod.Filling? && run[i].cons.Draining? ==> run[i].prod.h % n != run[i].cons.t % n
  {
    var s := run[i];
    RunKeepsInv(n, run, steps, i);
    if s.prod.Filling? && s.cons.Draining? {
      SlotOfWrapped(|s.pushed|, n);
      SlotOfWrapped(|s.popped|, n);
      WindowDistinct(|s.popped|, |s.pushed|, n);
    }
  }

  // ---- the calls, one at a time ----

  class SpscRing {
    const entries: nat
    var head: u32
    var tail: u32
    const slots: array<Msg>

    ghost predicate Valid()
      reads this
    {
      && 0 < entries < WRAP && WRAP % entries == 0 && slots.Length == entries
      && WrapSub(head, tail) <= entries
    }

    ghost function Queue(): (q: seq<Msg>)
      requires Valid()
      reads this, slots
      ensures |q| == WrapSub(head, tail)
    {
      seq(WrapSub(head, tail),
          i requires 0 <= i reads this, slots requires Valid() => slots[WrapAdd(tail, i) % entries])
    }

    constructor (entries: nat)
      requires 0 < entries < WRAP && WRAP % entries == 0
      ensures Valid() && this.entries == entries && Queue() == [] && fresh(slots)
    {
      this.entries := entries;
      slots := new Msg[entries](_ => [0, 0, 0, 0, 0]);
      head, tail := 0, 0;
    }

    method Reset()
      requires Valid()
      modifies this
      ensures Valid() && Queue() == []
    {
      head := 0;
      tail := 0;
    }

    // The slot a push writes is not the slot of any queued message.
    lemma FreshSlot(i: nat)
      requires Valid() && i < WrapSub(head, tail) < entries
      ensures WrapAdd(tail, i) % entries != head % entries
      ensures WrapAdd(tail, WrapSub(head, tail)) == head
    {
      var h := tail + WrapSub(head, tail);
      assert h % WRAP == head;
      SlotOfWrapped(h, entries);
      SlotOfWrapped(tail + i, entries);
      WindowDistinct(tail + i, h, entries);
    }

    method Push(msg: Msg) returns (err: Option<Errno>)
      requires Valid()
      modifies this`head, slots
      ensures Valid()
      ensures err == if |old(Queue())| == entries then Some(EAGAIN) else None
      ensures Queue() == if err == None then old(Queue()) + [msg] else old(Queue())
    {
      hide WrapAdd, WrapSub;
      var h := head;
      if WrapSub(h, tail) >= entries {
        return Some(EAGAIN);
      }
      ghost var before := Queue();
      forall i | 0 <= i < |before| ensures WrapAdd(tail, i) % entries != h % entries {
        FreshSlot(i);
      }
      slots[h % entries] := msg;
      assert Queue() == before;
      CountUp(h, tail);
      head := WrapAdd(h, 1);
      return None;
    }

    method Pop() returns (err: Option<Errno>, msg: Msg)
      requires Valid()
      modifies this`tail
      ensures Valid()
      ensures err == if old(Queue()) == [] then Some(EAGAIN) else None
      ensures err == None ==> [msg] + Queue() == old(Queue())
      ensures err.Some? ==> Queue() == old(Queue())
    {
      msg := [0, 0, 0, 0, 0];
      hide WrapAdd, WrapSub;
      var t := tail;
      if head == t {
        CountZero(head);
        return Some(EAGAIN), msg;
      }
      ghost var before := Queue();
      CountDown(head, t, 0);
      msg := slots[t % entries];
      assert before[0] == msg;
      tail := WrapAdd(t, 1);
      forall i | 0 <= i < |before| - 1 ensures WrapAdd(tail, i) == WrapAdd(t, i + 1) {
        CountDown(head, t, i);
      }
      assert before == [msg] + Queue();
      return None, msg;
    }

    method Count() returns (c: u32)
      requires Valid()
      ensures c == |Queue()| <= entries
    {
      return WrapSub(head, tail);
    }

    method IsEmpty() returns (b: bool)
      requires Valid()
      ensures b <==> Queue() == []
    {
      return head == tail;
    }

    method IsFull() returns (b: bool)
      requires Valid()
      ensures b <==> |Queue()| == entries
    {
      return WrapSub(head, tail) >= entries;
    }
  }
}
