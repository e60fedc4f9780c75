// For which entry counts the ring is a FIFO: exactly the divisors of 2^32. For any other
// count a run is built in which the indices wrap and a message overwrites an unread one.
module IpcRingSize {
  import opened Bytes
  import opened IpcRing

  // The run leads from reset to s.
  ghost predicate Reaches(n: nat, run: seq<State>, steps: seq<Step>, s: State)
    requires n > 0
  {
    IsRun(n, run, steps) && Initial(n, run[0]) && run[|steps|] == s
  }

  lemma OneMore(n: nat, run: seq<State>, steps: seq<Step>, s: State, step: Step)
    requires n > 0 && Reaches(n, run, steps, s) && Enabled(s, step)
    ensures Shape(n, s.ring) && Reaches(n, run + [Do(n, s, step)], steps + [step], Do(n, s, step))
  {
    hide Enabled, Do, Shape;
  }

  // Both sides between calls.
  predicate AtRest(n: nat, s: State) {
    n > 0 && Shape(n, s.ring) && s.prod.ProducerIdle? && s.cons.ConsumerIdle?
  }

  function Pushed(n: nat, s: State, m: Msg): State
    requires AtRest(n, s)
  {
    var h := s.ring.head;
    s.(ring := s.ring.(slots := s.ring.slots[h % n := m], head := WrapAdd(h, 1)), pushed := s.pushed + [m])
  }

  function Popped(n: nat, s: State): State
    requires AtRest(n, s)
  {
    var t := s.ring.tail;
    s.(ring := s.ring.(tail := WrapAdd(t, 1)), popped := s.popped + [s.ring.slots[t % n]])
  }

  // The words still to be written.
  lemma {:induction false} FillRun(n: nat, run: seq<State>, steps: seq<Step>, s: State)
    returns (run': seq<State>, steps': seq<Step>)
    requires n > 0 && Reaches(n, run, steps, s) && Shape(n, s.ring)
    requires s.prod.Filling? && s.prod.k <= MSG_WORDS
    requires s.ring.slots[s.prod.h % n][..s.prod.k] == s.prod.m[..s.prod.k]
    ensures Reaches(n, run', steps', s.(ring := s.ring.(slots := s.ring.slots[s.prod.h % n := s.prod.m]),
                                        prod := s.prod.(k := MSG_WORDS)))
    decreases MSG_WORDS - s.prod.k
  {
    var at, k, m := s.prod.h % n, s.prod.k, s.prod.m;
    if k == MSG_WORDS {
      run', steps' := run, steps;
      assert s.ring.slots[at] == m;
      assert s.ring.slots[at := m] == s.ring.slots;
    } else {
      var next := Do(n, s, PushWord);
      OneMore(n, run, steps, s, PushWord);
      hide Reaches;
      assert next.ring.slots[at][..k + 1] == m[..k + 1];
      run', steps' := FillRun(n, run + [next], steps + [PushWord], next);
      assert next.ring.slots[at := m] == s.ring.slots[at := m];
    }
  }

  lemma PushRun(n: nat, run: seq<State>, steps: seq<Step>, s: State, m: Msg)
    returns (run': seq<State>, steps': seq<Step>)
    requires n > 0 && Reaches(n, run, steps, s) && AtRest(n, s) && WrapSub(s.ring.head, s.ring.tail) < n
    ensures Reaches(n, run', steps', Pushed(n, s, m)) && AtRest(n, Pushed(n, s, m))
  {
    var s1 := s.(prod := HasHead(m, s.ring.head));
    OneMore(n, run, steps, s, PushReadHead(m));
    run', steps' := run + [s1], steps + [PushReadHead(m)];
    var s2 := s.(prod := Filling(m, s.ring.head, 0));
    hide Reaches;
    OneMore(n, run', steps', s1, PushReadTail);
    run', steps' := run' + [s2], steps' + [PushReadTail];
    assert s2.ring.slots[s.ring.head % n][..0] == m[..0];
    run', steps' := FillRun(n, run', steps', s2);
    var s3 := s.(ring := s.ring.(slots := s.ring.slots[s.ring.head % n := m]),
                 prod := Filling(m, s.ring.head, MSG_WORDS));
    OneMore(n, run', steps', s3, PushPublish);
    run', steps' := run' + [Pushed(n, s, m)], steps' + [PushPublish];
  }

  // The words still to be read.
  lemma {:induction false} DrainRun(n: nat, run: seq<State>, steps: seq<Step>, s: State)
    returns (run': seq<State>, steps': seq<Step>)
    requires n > 0 && Reaches(n, run, steps, s) && Shape(n, s.ring)
    requires s.cons.Draining? && |s.cons.copied| <= MSG_WORDS
    requires s.cons.copied == s.ring.slots[s.cons.t % n][..|s.cons.copied|]
    ensures Reaches(n, run', steps', s.(cons := s.cons.(copied := s.ring.slots[s.cons.t % n])))
    decreases MSG_WORDS - |s.cons.copied|
  {
    var row := s.ring.slots[s.cons.t % n];
    if |s.cons.copied| == MSG_WORDS {
      run', steps' := run, steps;
      assert s.cons.copied == row;
    } else {
      var next := Do(n, s, PopWord);
      OneMore(n, run, steps, s, PopWord);
      hide Reaches;
      assert next.cons.copied == row[..|next.cons.copied|];
      run', steps' := DrainRun(n, run + [next], steps + [PopWord], next);
    }
  }

  lemma PopRun(n: nat, run: seq<State>, steps: seq<Step>, s: State) returns (run': seq<State>, steps': seq<Step>)
    requires n > 0 && Reaches(n, run, steps, s) && AtRest(n, s) && s.ring.head != s.ring.tail
    ensures Reaches(n, run', steps', Popped(n, s)) && AtRest(n, Popped(n, s))
  {
    var t := s.ring.tail;
    var s1 := s.(cons := HasTail(t));
    OneMore(n, run, steps, s, PopReadTail);
    run', steps' := run + [s1], steps + [PopReadTail];
    hide Reaches;
    var s2 := s.(cons := Draining(t, []));
    OneMore(n, run', steps', s1, PopReadHead);
    run', steps' := run' + [s2], steps' + [PopReadHead];
    assert [] == s2.ring.slots[t % n][..0];
    run', steps' := DrainRun(n, run', steps', s2);
    var s3 := s.(cons := Draining(t, s.ring.slots[t % n]));
    OneMore(n, run', steps', s3, PopPublish);
    run', steps' := run' + [Popped(n, s)], steps' + [PopPublish];
  }

  const ZEROS: Msg := [0, 0, 0, 0, 0]
  const ONES: Msg := [1, 1, 1, 1, 1]

  // The ring at rest and empty after c messages went through.
  predicate EmptyAt(n: nat, s: State, c: nat) {
    AtRest(n, s) && s.ring.head == s.ring.tail == c % WRAP && |s.pushed| == |s.popped| == c
  }

  lemma {:induction false} ManyRounds(n: nat, c: nat) returns (run: seq<State>, steps: seq<Step>, s: State)
    requires 0 < n < WRAP
    ensures Reaches(n, run, steps, s) && EmptyAt(n, s, c)
  {
    if c == 0 {
      s := State(Ring(0, 0, seq(n, _ => ZEROS)), ProducerIdle, ConsumerIdle, [], []);
      run, steps := [s], [];
    } else {
      run, steps, s := ManyRounds(n, c - 1);
      hide Reaches;
      WrappedSuccessor(c - 1);
      run, steps := PushRun(n, run, steps, s, ZEROS);
      s := Pushed(n, s, ZEROS);
      assert s.ring.head != s.ring.tail;
      run, steps := PopRun(n, run, steps, s);
      s := Popped(n, s);
    }
  }

  // From empty after c messages: a message of zeros and k of ones.
  predicate FilledFrom(n: nat, s: State, c: nat, k: nat) {
    && AtRest(n, s) && s.ring.tail == c % WRAP && s.ring.head == (c + k + 1) % WRAP
    && |s.popped| == c && |s.pushed| == c + k + 1 && s.pushed[c] == ZEROS
    && (k > 0 ==> s.ring.slots[((c + k) % WRAP) % n] == ONES)
  }

  lemma {:induction false} FillingRun(n: nat, c: nat, k: nat) returns (run: seq<State>, steps: seq<Step>, s: State)
    requires 0 < n < WRAP && k < n
    ensures Reaches(n, run, steps, s) && FilledFrom(n, s, c, k)
  {
    if k == 0 {
      run, steps, s := ManyRounds(n, c);
      hide Reaches;
      WrappedSuccessor(c);
      run, steps := PushRun(n, run, steps, s, ZEROS);
      s := Pushed(n, s, ZEROS);
    } else {
      run, steps, s := FillingRun(n, c, k - 1);
      hide Reaches;
      WrappedSuccessor(c + k);
      WrappedDifference(c + k, c);
      run, steps := PushRun(n, run, steps, s, ONES);
      s := Pushed(n, s, ONES);
    }
  }

  // What the run shows at point i.
  ghost predicate FifoAt(n: nat, run: seq<State>, i: nat)
    requires 0 < n && i < |run|
  {
    && Shape(n, run[i].ring) && WrapSub(run[i].ring.head, run[i].ring.tail) <= n
    && run[i].popped + Queued(n, run[i].ring) == run[i].pushed
  }

  ghost predicate IsFifo(n: nat)
    requires n > 0
  {
    forall run: seq<State>, steps: seq<Step>, i: nat ::
      IsRun(n, run, steps) && Initial(n, run[0]) && i < |run| ==> FifoAt(n, run, i)
  }

  // With any other count the indices lose a message: when they wrap, the next message
  // goes to slot 0, which still holds one that was not read.
  lemma LosesAMessage(n: nat) returns (run: seq<State>, steps: seq<Step>)
    requires 0 < n < WRAP && WRAP % n != 0
    ensures IsRun(n, run, steps) && Initial(n, run[0])
    ensures !FifoAt(n, run, |steps|) && WrapSub(run[|steps|].ring.head, run[|steps|].ring.tail) <= n
  {
    var r := WRAP % n;
    var c := WRAP - r;
    assert c == (WRAP / n) * n;
    ModPlusMultiple(0, WRAP / n, n);
    var s;
    run, steps, s := FillingRun(n, c, r);
    WrappedDifference(c + r + 1, c);
    hide IsRun;
    assert ((c + r) % WRAP) % n == 0 && c % WRAP == c && c % n == 0;
    assert s.ring.slots[0] == ONES;
    var q := Queued(n, s.ring);
    assert |q| == r + 1;
    assert q[0] == s.ring.slots[WrapAdd(s.ring.tail, 0) % n] == ONES;
    var all: seq<seq<u32>> := s.popped + q;
    assert all[c] == ONES && s.pushed[c] == ZEROS;
  }

  // The ring is a FIFO in every run exactly when its entry count divides 2^32.
  lemma FifoIffDivides(n: nat)
    requires 0 < n < WRAP
    ensures IsFifo(n) <==> WRAP % n == 0
  {
    if WRAP % n == 0 {
      forall run: seq<State>, steps: seq<Step>, i: nat | IsRun(n, run, steps) && Initial(n, run[0]) && i < |run|
        ensures FifoAt(n, run, i)
      {
        RingIsFifo(n, run, steps, i);
      }
    } else {
      var run, steps := LosesAMessage(n);
      assert |steps| < |run|;
    }
  }
}
