// The drain gate: one worker that enters and leaves, one controller that pauses
// admission and waits for the worker to be out.
//
// A step is one critical section or one semaphore operation; the two sides interleave
// freely between them. That the wait of drain is sound rests on a stale-token argument:
// drain empties the semaphore inside the critical section that samples busy, and a token
// given after that can only come from the exit being waited for.
module DrainGate {

  datatype Worker = Outside | Inside | Leaving(notify: bool)

  // Released: the gate is open. Drained: drain returned 0. TimedOut: it returned -ETIMEDOUT.
  datatype Controller = Released | Waiting | Drained | TimedOut

  datatype Gate = Gate(paused: bool, busy: bool, idle: nat, worker: Worker, ctrl: Controller)

  datatype Step = Enter | ExitLocked | GiveIdle | DrainLocked | TakeIdle | Timeout | Resume

  predicate Enabled(g: Gate, s: Step) {
    match s
    case Enter => g.worker.Outside?
    case ExitLocked => g.worker.Inside?
    case GiveIdle => g.worker.Leaving?
    case DrainLocked => !g.ctrl.Waiting?
    case TakeIdle => g.ctrl.Waiting? && g.idle > 0
    case Timeout => g.ctrl.Waiting?
    case Resume => !g.ctrl.Waiting?
  }

  function Do(g: Gate, s: Step): Gate
    requires Enabled(g, s)
  {
    match s
    case Enter => if g.paused then g else g.(busy := true, worker := Inside)
    case ExitLocked => g.(busy := false, worker := Leaving(g.paused))
    case GiveIdle => g.(idle := if g.worker.notify then 1 else g.idle, worker := Outside)
    case DrainLocked => g.(paused := true, idle := 0, ctrl := if g.busy then Waiting else Drained)
    case TakeIdle => g.(idle := g.idle - 1, ctrl := Drained)
    case Timeout => g.(ctrl := TimedOut)
    case Resume => g.(paused := false, ctrl := Released)
  }

  const INITIAL := Gate(false, false, 0, Outside, Released)

  predicate Inv(g: Gate) {
    && g.idle <= 1
    && (g.busy <==> g.worker.Inside?)
    && (g.paused <==> !g.ctrl.Released?)
    && (g.ctrl.Drained? ==> !g.worker.Inside?)
    // A token seen by a waiting controller was given after the worker left.
    && (g.ctrl.Waiting? && g.idle > 0 ==> !g.worker.Inside?)
    // The wakeup of a waiting controller is on its way.
    && (g.ctrl.Waiting? ==> g.worker.Inside? || g.worker == Leaving(true) || g.idle > 0)
  }

  ghost predicate IsRun(run: seq<Gate>, steps: seq<Step>) {
    && |run| == |steps| + 1 && run[0] == INITIAL
    && forall i :: 0 <= i < |steps| ==> Enabled(run[i], steps[i]) && run[i + 1] == Do(run[i], steps[i])
  }

  lemma {:induction false} RunKeepsInv(run: seq<Gate>, steps: seq<Step>, i: nat)
    requires IsRun(run, steps) && i < |run|
    ensures Inv(run[i])
  {
    if i > 0 {
      RunKeepsInv(run, steps, i - 1);
    }
  }

  // Once drain has returned 0 at point i, no worker is inside at any later point until
  // the controller resumes, whatever else it calls.
  lemma {:induction false} DrainedStaysEmpty(run: seq<Gate>, steps: seq<Step>, i: nat, j: nat)
    requires IsRun(run, steps) && i <= j < |run|
    requires run[i].ctrl.Drained?
    requires forall k :: i <= k < j ==> !steps[k].Resume?
    ensures run[j].ctrl.Drained? && !run[j].worker.Inside? && !run[j].busy
  {
    RunKeepsInv(run, steps, j);
    if i < j {
      DrainedStaysEmpty(run, steps, i, j - 1);
      RunKeepsInv(run, steps, j - 1);
    }
  }

  // A drain that follows a timed-out one, whatever tokens the late exit left behind, is
  // as safe as the first: it returns 0 only with the worker out.
  lemma DrainReturnsZeroOnlyWhenEmpty(run: seq<Gate>, steps: seq<Step>, i: nat)
    requires IsRun(run, steps) && i < |steps| && (steps[i].DrainLocked? || steps[i].TakeIdle?)
    ensures run[i + 1].ctrl.Drained? ==> !run[i + 1].worker.Inside? && run[i + 1].paused
    ensures run[i + 1].ctrl.Waiting? <==> steps[i].DrainLocked? && run[i].worker.Inside?
  {
    RunKeepsInv(run, steps, i);
    RunKeepsInv(run, steps, i + 1);
  }

  // No lost wakeup: a controller still waiting after the worker is out has its token.
  lemma WaitingHasToken(run: seq<Gate>, steps: seq<Step>, i: nat)
    requires IsRun(run, steps) && i < |run|
    ensures run[i].ctrl.Waiting? && run[i].worker.Outside? ==> Enabled(run[i], TakeIdle)
  {
    RunKeepsInv(run, steps, i);
  }

  // ---- the gate object ----

  class SynDrainGate {
    var paused: bool
    var busy: bool
    var idle: nat
    // Which call each side is in; the code has it in its program counters.
    ghost var worker: Worker
    ghost var ctrl: Controller

    ghost function View(): Gate
      reads this
    {
      Gate(paused, busy, idle, worker, ctrl)
    }

    constructor ()
      ensures View() == INITIAL
    {
      paused, busy, idle := false, false, 0;
      worker, ctrl := Outside, Released;
    }

    method Enter() returns (admitted: bool)
      requires worker.Outside?
      modifies this
      ensures View() == Do(old(View()), Step.Enter) && admitted == !old(paused)
    {
      admitted := !paused;
      if admitted {
        busy := true;
        worker := Inside;
      }
    }

    // The critical section of exit.
    method ExitLocked() returns (notify: bool)
      requires worker.Inside?
      modifies this
      ensures View() == Do(old(View()), Step.ExitLocked) && notify == worker.notify
    {
      busy := false;
      notify := paused;
      worker := Leaving(paused);
    }

    // The rest of exit: give the idle semaphore, whose limit is 1.
    method ExitNotify(notify: bool)
      requires worker == Leaving(notify)
      modifies this
      ensures View() == Do(old(View()), GiveIdle)
    {
      if notify {
        idle := 1;
      }
      worker := Outside;
    }

    // The critical section of drain; false means drain returns 0 at once.
    method DrainLocked() returns (wait: bool)
      requires !ctrl.Waiting?
      modifies this
      ensures View() == Do(old(View()), Step.DrainLocked) && wait == ctrl.Waiting?
    {
      paused := true;
      idle := 0;
      wait := busy;
      ctrl := if busy then Waiting else Drained;
    }

    // The wait of drain ends: with a token, or by timeout when there is none.
    method DrainWait() returns (ok: bool)
      requires ctrl.Waiting?
      modifies this
      ensures ok <==> old(idle) > 0
      ensures View() == Do(old(View()), if ok then TakeIdle else Timeout)
    {
      ok := idle > 0;
      if ok {
        idle := idle - 1;
        ctrl := Drained;
      } else {
        ctrl := TimedOut;
      }
    }

    method Resume()
      requires !ctrl.Waiting?
      modifies this
      ensures View() == Do(old(View()), Step.Resume)
    {
      paused := false;
      ctrl := Released;
    }
  }
}
