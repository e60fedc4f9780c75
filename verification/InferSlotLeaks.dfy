// Two runs in which the suspension slots and the jobs that own them fall out of step, one
// for each rule of InferScheduler.Disciplined.
module InferSlotLeaks {
  import opened Errno
  import opened InferScheduler

  // A disciplined run leads from one state to the other.
  ghost predicate Reaches(from: State, run: seq<Event>, st: State) {
    Possible(from, run) && DisciplinedRun(from, run) && Run(from, run) == st
  }

  ghost predicate Leads(a: State, e: Event, b: State) {
    Enabled(a, e) && Disciplined(a, e) && Next(a, e) == b
  }

  lemma {:induction false} Then(from: State, run: seq<Event>, a: State, e: Event, b: State)
    requires Reaches(from, run, a) && Leads(a, e, b)
    ensures Reaches(from, run + [e], b)
    decreases |run|
  {
    hide Enabled, Next, Disciplined;
    if run == [] {
      assert run + [e] == [e] && [e][1..] == [];
      EmptyRun(b);
    } else {
      Then(Next(from, run[0]), run[1..], a, e, b);
      assert (run + [e])[1..] == run[1..] + [e];
    }
  }

  lemma EmptyRun(st: State)
    ensures Reaches(st, [], st)
  {
  }

  function LowJob(state: JobState, ctx: Option<nat>, resuming: bool): Job {
    Job(1, state, 0, 0, 0, 0, true, ctx, resuming)
  }

  function HighJob(state: JobState): Job {
    Job(2, state, 1, 1, 0, 1, false, None, false)
  }

  // A job of pipeline 0 alone in the table.
  function OneJob(state: JobState, pc: Pc, wake: nat, owed: nat): State {
    State([LowJob(state, None, false), NO_JOB], pc, wake, 0, owed, false, state == Running, 0, Out,
          [None, None], Stats(1, 0, 0, 0), 2, 1)
  }

  // The same and, after it began, one of pipeline 1 that outranks it.
  function TwoJobs(low: Job, high: Job, pc: Pc, wake: nat, slot: Option<nat>): State {
    State([low, high], pc, wake, 0, 1, false, low.state == Running, 0, Out, [slot, None],
          Stats(2, 0, 0, if high.state == Cancelled then 1 else 0), 3, 2)
  }

  lemma OneJobIsSubmitted()
    ensures Leads(Initial(2), Submit(0, 0, 0, true), OneJob(Queued, Blocked, 0, 1))
  {
    assert Next(Initial(2), Submit(0, 0, 0, true)).jobs == OneJob(Queued, Blocked, 0, 1).jobs;
  }

  lemma OneJobWaits()
    ensures Leads(OneJob(Queued, Blocked, 0, 1), SubmitGive, OneJob(Queued, Blocked, 1, 0))
    ensures Leads(OneJob(Queued, Blocked, 1, 0), Take, OneJob(Queued, Woken, 0, 0))
  {
  }

  lemma OneJobRuns()
    ensures Leads(OneJob(Queued, Woken, 0, 0), Dispatch, OneJob(Running, Starting(0), 0, 0))
    ensures Leads(OneJob(Running, Starting(0), 0, 0), Begin, OneJob(Running, Working(0), 0, 0))
  {
    var st := OneJob(Queued, Woken, 0, 0);
    assert Pick(st.jobs, 1) == Some(0) && Pick(st.jobs, 2) == Some(0);
    assert Started(st, 0).jobs == OneJob(Running, Starting(0), 0, 0).jobs;
  }

  lemma SecondJobComes()
    ensures Leads(OneJob(Running, Working(0), 0, 0), Submit(1, 1, 0, false),
                  TwoJobs(LowJob(Running, None, false), HighJob(Queued), Working(0), 0, None))
  {
    var st := OneJob(Running, Working(0), 0, 0);
    assert FirstFree(st.jobs, 1) == Some(1) && FirstFree(st.jobs, 0) == Some(1);
    assert Next(st, Submit(1, 1, 0, false)).jobs == [LowJob(Running, None, false), HighJob(Queued)];
  }

  lemma FirstJobYields()
    ensures var low, high := LowJob(Running, None, false), HighJob(Queued);
            && Leads(TwoJobs(low, high, Working(0), 0, None), SeePreemptor, TwoJobs(low, high, Yielding(0), 0, None))
            && Leads(TwoJobs(low, high, Yielding(0), 0, None), Park, TwoJobs(low, high, Parked(0, 0), 0, Some(0)))
  {
    var st := TwoJobs(LowJob(Running, None, false), HighJob(Queued), Working(0), 0, None);
    assert st.jobs[1] == HighJob(Queued);
    assert FirstSlot(st.slots, 0) == Some(0);
  }

  lemma FirstJobParks()
    ensures var low, high := LowJob(Running, None, false), HighJob(Queued);
            && Leads(TwoJobs(low, high, Parked(0, 0), 0, Some(0)), Record,
                     TwoJobs(low.(ctx := Some(0)), high, Preempted(0), 0, Some(0)))
            && Leads(TwoJobs(low.(ctx := Some(0)), high, Preempted(0), 0, Some(0)), Event.Suspend,
                     TwoJobs(LowJob(Suspended, Some(0), false), high, Giving(false, true), 0, Some(0)))
  {
    var low, high := LowJob(Running, None, false), HighJob(Queued);
    assert [low, high][0 := low.(ctx := Some(0))] == [low.(ctx := Some(0)), high];
    assert [low.(ctx := Some(0)), high][0 := LowJob(Suspended, Some(0), false)] ==
           [LowJob(Suspended, Some(0), false), high];
  }

  function ParkedAndQueued(): State {
    TwoJobs(LowJob(Suspended, Some(0), false), HighJob(Queued), Giving(false, true), 0, Some(0))
  }

  // A disciplined run to a parked job of one pipeline and a queued one of another.
  lemma ParkingRun() returns (run: seq<Event>)
    ensures Reaches(Initial(2), run, ParkedAndQueued())
  {
    OneJobIsSubmitted();
    OneJobWaits();
    OneJobRuns();
    SecondJobComes();
    FirstJobYields();
    FirstJobParks();
    EmptyRun(Initial(2));
    hide Reaches, Leads;
    var low, high := LowJob(Running, None, false), HighJob(Queued);
    run := [];
    Then(Initial(2), run, Initial(2), Submit(0, 0, 0, true), OneJob(Queued, Blocked, 0, 1));
    run := run + [Submit(0, 0, 0, true)];
    Then(Initial(2), run, OneJob(Queued, Blocked, 0, 1), SubmitGive, OneJob(Queued, Blocked, 1, 0));
    run := run + [SubmitGive];
    Then(Initial(2), run, OneJob(Queued, Blocked, 1, 0), Take, OneJob(Queued, Woken, 0, 0));
    run := run + [Take];
    Then(Initial(2), run, OneJob(Queued, Woken, 0, 0), Dispatch, OneJob(Running, Starting(0), 0, 0));
    run := run + [Dispatch];
    Then(Initial(2), run, OneJob(Running, Starting(0), 0, 0), Begin, OneJob(Running, Working(0), 0, 0));
    run := run + [Begin];
    Then(Initial(2), run, OneJob(Running, Working(0), 0, 0), Submit(1, 1, 0, false),
         TwoJobs(low, high, Working(0), 0, None));
    run := run + [Submit(1, 1, 0, false)];
    Then(Initial(2), run, TwoJobs(low, high, Working(0), 0, None), SeePreemptor,
         TwoJobs(low, high, Yielding(0), 0, None));
    run := run + [SeePreemptor];
    Then(Initial(2), run, TwoJobs(low, high, Yielding(0), 0, None), Park, TwoJobs(low, high, Parked(0, 0), 0, Some(0)));
    run := run + [Park];
    var saved := TwoJobs(low.(ctx := Some(0)), high, Preempted(0), 0, Some(0));
    Then(Initial(2), run, TwoJobs(low, high, Parked(0, 0), 0, Some(0)), Record, saved);
    run := run + [Record];
    Then(Initial(2), run, saved, Event.Suspend, ParkedAndQueued());
    run := run + [Event.Suspend];
  }

  function Robbed(pc: Pc, wake: nat, state: JobState, resuming: bool): State {
    TwoJobs(LowJob(state, None, resuming), HighJob(Cancelled), pc, wake, None)
  }

  lemma DestroyTakesTheSlot()
    ensures Enabled(ParkedAndQueued(), Destroy(1))
    ensures Next(ParkedAndQueued(), Destroy(1)) == Robbed(Giving(false, true), 0, Suspended, false)
    ensures SlotsOwned(ParkedAndQueued()) && !SlotsOwned(Robbed(Giving(false, true), 0, Suspended, false))
  {
    var st := ParkedAndQueued();
    var robbed := TwoJobs(LowJob(Suspended, None, false), HighJob(Queued), Giving(false, true), 0, None);
    assert DestroyFirst(st, 1, 0) == st;
    assert DestroyFirst(st, 1, 1) == robbed by {
      assert [Some(0), None][0 := None] == [None, None];
    }
    assert DestroyFirst(st, 1, 2) == DestroyOne(robbed, 1, 1) == Robbed(Giving(false, true), 0, Suspended, false);
    assert Robbed(Giving(false, true), 0, Suspended, false).jobs[0].ctx.None?;
  }

  lemma RobbedRuns()
    ensures Leads(Robbed(Giving(false, true), 0, Suspended, false), GiveWake, Robbed(Blocked, 1, Suspended, false))
    ensures Leads(Robbed(Blocked, 1, Suspended, false), Take, Robbed(Woken, 0, Suspended, false))
  {
  }

  lemma RobbedStarts()
    ensures Leads(Robbed(Woken, 0, Suspended, false), Dispatch, Robbed(Starting(0), 0, Running, true))
  {
    var st := Robbed(Woken, 0, Suspended, false);
    assert Pick(st.jobs, 1) == Some(0) && Pick(st.jobs, 2) == Some(0);
    assert Started(st, 0).jobs == Robbed(Starting(0), 0, Running, true).jobs;
  }

  lemma RobbedIsRefused()
    ensures Leads(Robbed(Starting(0), 0, Running, true), Restore, Robbed(Refused(0), 0, Running, false))
  {
    assert DoRestore(Robbed(Starting(0), 0, Running, true)).jobs == Robbed(Refused(0), 0, Running, false).jobs;
  }

  // Destroying the other pipeline takes the parked job's context away: dispatched again,
  // it is refused, though nobody cancelled it.
  lemma DestroyRobsAParkedJob() returns (before: seq<Event>, after: seq<Event>)
    ensures Reaches(Initial(2), before, ParkedAndQueued()) && Enabled(ParkedAndQueued(), Destroy(1))
    ensures var st := Next(ParkedAndQueued(), Destroy(1));
            && SlotsOwned(ParkedAndQueued()) && !SlotsOwned(st)
            && Possible(st, after) && Run(st, after).pc == Refused(0)
  {
    before := ParkingRun();
    DestroyTakesTheSlot();
    RobbedRuns();
    RobbedStarts();
    RobbedIsRefused();
    var st := Robbed(Giving(false, true), 0, Suspended, false);
    EmptyRun(st);
    hide Leads, Next, Enabled, SlotsOwned;
    after := [];
    Then(st, after, st, GiveWake, Robbed(Blocked, 1, Suspended, false));
    after := after + [GiveWake];
    Then(st, after, Robbed(Blocked, 1, Suspended, false), Take, Robbed(Woken, 0, Suspended, false));
    after := after + [Take];
    Then(st, after, Robbed(Woken, 0, Suspended, false), Dispatch, Robbed(Starting(0), 0, Running, true));
    after := after + [Dispatch];
    Then(st, after, Robbed(Starting(0), 0, Running, true), Restore, Robbed(Refused(0), 0, Running, false));
    after := after + [Restore];
  }

  function Alone(pc: Pc, wake: nat, state: JobState, resuming: bool): State {
    TwoJobs(LowJob(state, Some(0), resuming), HighJob(Cancelled), pc, wake, Some(0))
  }

  lemma AloneRuns()
    ensures Leads(ParkedAndQueued(), Event.Cancel(1), Alone(Giving(false, true), 0, Suspended, false))
    ensures Leads(Alone(Giving(false, true), 0, Suspended, false), GiveWake, Alone(Blocked, 1, Suspended, false))
    ensures Leads(Alone(Blocked, 1, Suspended, false), Take, Alone(Woken, 0, Suspended, false))
  {
    assert Cancelled1(ParkedAndQueued(), 1).jobs == Alone(Giving(false, true), 0, Suspended, false).jobs;
  }

  lemma AloneResumes()
    ensures Leads(Alone(Woken, 0, Suspended, false), Dispatch, Alone(Starting(0), 0, Running, true))
    ensures Enabled(Alone(Starting(0), 0, Running, true), FailEarly) && SlotsOwned(Alone(Starting(0), 0, Running, true))
  {
    var st := Alone(Woken, 0, Suspended, false);
    assert Pick(st.jobs, 1) == Some(0) && Pick(st.jobs, 2) == Some(0);
    assert Started(st, 0).jobs == Alone(Starting(0), 0, Running, true).jobs;
  }

  lemma AloneFails()
    ensures var st := Next(Alone(Starting(0), 0, Running, true), FailEarly);
            && !SlotsOwned(st)
            && st.slots[0].Some? && !HasJob(st.pc) && forall i :: 0 <= i < |st.jobs| ==> !Active(st.jobs[i])
  {
    assert Next(Alone(Starting(0), 0, Running, true), FailEarly).jobs ==
           [LowJob(Error, Some(0), true), HighJob(Cancelled)];
  }

  // A resuming job that fails before its restore leaves its context behind: no job runs
  // or waits any more, and the slot stays taken.
  lemma EarlyFailureLeaksASlot() returns (run: seq<Event>)
    ensures Reaches(Initial(2), run, Alone(Starting(0), 0, Running, true))
    ensures Enabled(Alone(Starting(0), 0, Running, true), FailEarly) && SlotsOwned(Alone(Starting(0), 0, Running, true))
    ensures var st := Next(Alone(Starting(0), 0, Running, true), FailEarly);
            && !SlotsOwned(st)
            && st.slots[0].Some? && !HasJob(st.pc) && forall i :: 0 <= i < |st.jobs| ==> !Active(st.jobs[i])
  {
    run := ParkingRun();
    AloneRuns();
    AloneResumes();
    AloneFails();
    hide Reaches, Leads, Next, Enabled, SlotsOwned;
    Then(Initial(2), run, ParkedAndQueued(), Event.Cancel(1), Alone(Giving(false, true), 0, Suspended, false));
    run := run + [Event.Cancel(1)];
    Then(Initial(2), run, Alone(Giving(false, true), 0, Suspended, false), GiveWake,
         Alone(Blocked, 1, Suspended, false));
    run := run + [GiveWake];
    Then(Initial(2), run, Alone(Blocked, 1, Suspended, false), Take, Alone(Woken, 0, Suspended, false));
    run := run + [Take];
    Then(Initial(2), run, Alone(Woken, 0, Suspended, false), Dispatch, Alone(Starting(0), 0, Running, true));
    run := run + [Dispatch];
  }
}
