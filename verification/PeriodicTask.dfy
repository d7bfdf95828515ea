/**
 * `PeriodicBackgroundTask`: an interval, forced runs, and a queue that executes the task. Every run
 * becomes a job of the queue; `runningPromise` is the job whose promise callers share.
 */
module PeriodicTasks {
  import opened Prelude
  import IR = IntervalRunners

  /** A job in the queue, and whether the signal that decides if it may still run has been aborted. */
  datatype Phase = Waiting | Executing | Done
  datatype Job = Job(phase: Phase, aborted: bool)

  /** A call of `destroy`: the stored promise it awaits, if there was one, and how the call ends. */
  datatype Ending = Open | Fulfilled | Failed
  datatype Call = Call(awaited: Option<nat>, ending: Ending)

  datatype Task = Task(
    period: nat,
    destroyed: bool,               // the task's own signal
    queueDestroyed: bool,
    stored: Option<nat>,           // intervalPromise, as an index into the promises that `start` has stored
    starts: seq<bool>,             // for each of these, whether `start` found the signal aborted
    interval: Option<IR.Interval>, // the interval that was begun: one at most, before the signal is aborted
    calls: seq<Call>,              // the calls of `destroy`
    awaited: Option<nat>,          // the job the interval waits for
    current: Option<nat>,          // runningPromise
    jobs: seq<Job>,
    executions: nat                // how often the task was called
  )

  datatype Event =
    | Start(now: int)
    | TimerFires(now: int)
    | ForceRun(signalAborted: bool)
    | CallerAborts(job: nat)        // the signal given to a forced run
    | JobTaken(job: nat)            // the queue takes the job
    | JobEnds(job: nat)             // the task returns or throws; the queue swallows errors
    | Forget(job: nat)              // the finally block of run
    | IntervalResumes(now: int)     // the awaited promise has settled
    | DestroyTask
    | DestroyResumes(call: nat)     // the promise awaited by `destroy` has settled
    | DestroyQueue

  function NewTask(period: nat): Task {
    Task(period, false, false, None, [], None, [], None, None, [], 0)
  }

  /** `run`: the shared promise if there is one, otherwise a new job. A destroyed queue yields a job that is done. */
  function AddJob(t: Task, signalAborted: bool): Task {
    if t.current.Some? || t.destroyed || signalAborted then t
    else t.(jobs := t.jobs + [Job(if t.queueDestroyed then Done else Waiting, false)], current := Some(|t.jobs|))
  }

  function SetJob(t: Task, i: nat, j: Job): Task
    requires i < |t.jobs|
  {
    t.(jobs := t.jobs[i := j])
  }

  function AbortJob(j: Job): Job {
    if j.phase == Done then j else j.(aborted := true)
  }

  /** Aborting the task's signal aborts the signals of all its unfinished jobs and the interval. */
  function Destroyed(t: Task): Task {
    t.(destroyed := true,
       jobs := seq(|t.jobs|, i requires 0 <= i < |t.jobs| => AbortJob(t.jobs[i])),
       interval := if t.interval.Some? then Some(IR.Apply(t.interval.value, IR.InputAborts)) else None)
  }

  /** How a stored promise stands: one stored under an aborted signal is rejected from the start. */
  function Settled(t: Task, p: nat): IR.Settlement {
    if p < |t.starts| && t.starts[p] then IR.Rejected
    else if t.interval.Some? then t.interval.value.promise
    else IR.Pending
  }

  /** The span of `destroy` after its await: a rejection leaves the stored promise where it is. */
  function ResumeCall(t: Task, k: nat): Task
    requires k < |t.calls|
  {
    var c := t.calls[k];
    var settled := if c.awaited.Some? then Settled(t, c.awaited.value) else IR.Resolved;
    if c.ending != Open || settled == IR.Pending then t
    else if settled == IR.Rejected then t.(calls := t.calls[k := c.(ending := Failed)])
    else t.(calls := t.calls[k := c.(ending := Fulfilled)], stored := None)
  }

  function Apply(t: Task, e: Event): Task {
    match e
    case Start(now) =>
      if t.stored.Some? then t
      else
        t.(stored := Some(|t.starts|), starts := t.starts + [t.destroyed],
           interval := if t.destroyed then t.interval else Some(IR.Begin(t.period, now, false)))
    case TimerFires(now) =>
      if t.interval.None? then t
      else
        var i := IR.Apply(t.interval.value, IR.TimerFires(now));
        if i == t.interval.value then t
        else
          var t' := AddJob(t, false);
          t'.(interval := Some(i), awaited := t'.current)
    case ForceRun(signalAborted) => AddJob(t, signalAborted)
    case CallerAborts(i) =>
      if i < |t.jobs| && t.jobs[i].phase != Done then SetJob(t, i, t.jobs[i].(aborted := true)) else t
    case JobTaken(i) =>
      if i >= |t.jobs| || t.jobs[i].phase != Waiting then t
      else if t.jobs[i].aborted then SetJob(t, i, t.jobs[i].(phase := Done))
      else SetJob(t, i, t.jobs[i].(phase := Executing)).(executions := t.executions + 1)
    case JobEnds(i) =>
      if i < |t.jobs| && t.jobs[i].phase == Executing then SetJob(t, i, t.jobs[i].(phase := Done)) else t
    case Forget(i) =>
      if i < |t.jobs| && t.jobs[i].phase == Done && t.current == Some(i) then t.(current := None) else t
    case IntervalResumes(now) =>
      if t.interval.Some? && t.interval.value.running && t.awaited.Some?
         && t.awaited.value < |t.jobs| && t.jobs[t.awaited.value].phase == Done
      then t.(interval := Some(IR.Apply(t.interval.value, IR.Returns(now))), awaited := None)
      else t
    case DestroyTask => Destroyed(t).(calls := t.calls + [Call(t.stored, Open)])
    case DestroyResumes(k) => if k < |t.calls| then ResumeCall(t, k) else t
    case DestroyQueue => Destroyed(t).(queueDestroyed := true)
  }

  function Run(t: Task, events: seq<Event>): Task {
    if events == [] then t else Apply(Run(t, events[..|events| - 1]), events[|events| - 1])
  }

  /** The calls a user makes, on the object's own fields. */
  class PeriodicBackgroundTask {
    const period: nat
    var destroyed: bool
    var queueDestroyed: bool
    var intervalPromise: Option<nat>
    var starts: seq<bool>
    var interval: Option<IR.Interval>
    var calls: seq<Call>
    var awaited: Option<nat>
    var current: Option<nat>
    var jobs: seq<Job>
    var executions: nat

    function View(): Task
      reads this
    {
      Task(period, destroyed, queueDestroyed, intervalPromise, starts, interval, calls, awaited, current, jobs,
           executions)
    }

    constructor (period: nat)
      ensures View() == NewTask(period)
    {
      this.period := period;
      destroyed, queueDestroyed, intervalPromise, starts, interval := false, false, None, [], None;
      calls, awaited, current, jobs, executions := [], None, None, [], 0;
    }

    /** None stands for the exception of an aborted signal. */
    method RunNow(signalAborted: bool) returns (promise: Option<nat>)
      modifies this
      ensures View() == Apply(old(View()), ForceRun(signalAborted))
      ensures promise == if old(current).Some? || !(old(destroyed) || signalAborted) then current else None
      ensures promise.Some? && old(current).None? ==> promise == Some(old(|jobs|)) && |jobs| == old(|jobs|) + 1
    {
      if current.Some? {
        return current;
      }
      if destroyed || signalAborted {
        return None;
      }
      current := Some(|jobs|);
      jobs := jobs + [Job(if queueDestroyed then Done else Waiting, false)];
      promise := current;
    }

    /** `startInterval` is asynchronous: on an aborted signal a rejected promise is stored and nothing is thrown. */
    method StartInterval(now: int)
      modifies this
      ensures View() == Apply(old(View()), Start(now))
      ensures intervalPromise.Some?
      ensures old(intervalPromise).None? && old(destroyed) ==> Settled(View(), intervalPromise.value) == IR.Rejected
    {
      if intervalPromise.None? {
        intervalPromise := Some(|starts|);
        starts := starts + [destroyed];
        if !destroyed {
          interval := Some(IR.Begin(period, now, false));
        }
      }
    }

    /** The span of `destroy` up to its await. */
    method Destroy() returns (call: nat)
      modifies this
      ensures View() == Apply(old(View()), DestroyTask)
      ensures destroyed && call < |calls| && calls[call] == Call(intervalPromise, Open)
    {
      destroyed := true;
      call := |calls|;
      calls := calls + [Call(intervalPromise, Open)];
      var i := 0;
      var before := jobs;
      while i < |jobs|
        invariant 0 <= i <= |jobs| == |before|
        invariant forall k :: i <= k < |jobs| ==> jobs[k] == before[k]
        invariant forall k :: 0 <= k < i ==> jobs[k] == AbortJob(before[k])
        modifies this`jobs
      {
        if jobs[i].phase != Done {
          jobs := jobs[i := jobs[i].(aborted := true)];
        }
        i := i + 1;
      }
      if interval.Some? {
        interval := Some(IR.Apply(interval.value, IR.InputAborts));
      }
    }

    /** The span after the await; false is the rejection of `destroy`. */
    method OnDestroyResumes(call: nat) returns (ok: bool)
      requires call < |calls| && calls[call].ending == Open
      requires calls[call].awaited.Some? ==> Settled(View(), calls[call].awaited.value) != IR.Pending
      modifies this`calls, this`intervalPromise
      ensures View() == Apply(old(View()), DestroyResumes(call))
      ensures ok ==> intervalPromise == None
      ensures !ok ==> intervalPromise == old(intervalPromise)
      ensures !ok <==> calls[call].ending == Failed
    {
      var c := calls[call];
      ok := c.awaited.None? || Settled(View(), c.awaited.value) == IR.Resolved;
      if ok {
        calls := calls[call := c.(ending := Fulfilled)];
        intervalPromise := None;
      } else {
        calls := calls[call := c.(ending := Failed)];
      }
    }
  }

  // ----- what every run keeps -----

  predicate JobOk(t: Task, i: nat)
    requires i < |t.jobs|
  {
    && (t.jobs[i].phase != Done ==> t.current == Some(i))
    && (t.destroyed && t.jobs[i].phase == Waiting ==> t.jobs[i].aborted)
  }

  /** What is stored and awaited was stored by a `start`, and a call has failed only on a promise stored too late. */
  ghost predicate PromisesOk(t: Task) {
    && (t.stored.Some? ==> t.stored.value < |t.starts|)
    && (forall k :: 0 <= k < |t.calls| && t.calls[k].awaited.Some? ==> t.calls[k].awaited.value < |t.starts|)
    && (forall k :: 0 <= k < |t.calls| && t.calls[k].ending != Open ==>
          (t.calls[k].ending == Failed <==> t.calls[k].awaited.Some? && t.starts[t.calls[k].awaited.value]))
    && (t.destroyed || (t.calls == [] && (t.stored.None? ==> t.interval.None? && t.starts == [])))
    && (false in t.starts ==> t.interval.Some?)
  }

  ghost predicate Inv(t: Task) {
    && PromisesOk(t)
    && (forall i :: 0 <= i < |t.jobs| ==> JobOk(t, i))
    && (t.current.Some? ==> t.current.value < |t.jobs|)
    && (t.queueDestroyed ==> t.destroyed)
    && (t.interval.Some? ==>
          && IR.Inv(t.interval.value)
          && t.interval.value.promise != IR.Rejected
          && (t.destroyed ==> t.interval.value.aborted)
          && (t.interval.value.running ==> t.awaited.Some? && t.awaited.value < |t.jobs|))
  }

  lemma SetJobOk(t: Task, i: nat, j: Job)
    requires Inv(t) && i < |t.jobs|
    requires j.phase != Done ==> t.jobs[i].phase != Done
    requires j.phase == Waiting && t.jobs[i].aborted ==> j.aborted
    requires j.phase == Waiting ==> t.jobs[i].phase == Waiting
    ensures Inv(SetJob(t, i, j))
  {
    hide IR.Inv;
    forall k | 0 <= k < |t.jobs| ensures JobOk(SetJob(t, i, j), k) {
      assert JobOk(t, k);
    }
  }

  lemma AddJobOk(t: Task, signalAborted: bool)
    requires Inv(t)
    ensures Inv(AddJob(t, signalAborted)) && |t.jobs| <= |AddJob(t, signalAborted).jobs|
    ensures t.current.None? && !t.destroyed && !signalAborted ==> AddJob(t, signalAborted).current.Some?
  {
    hide IR.Inv;
    var t' := AddJob(t, signalAborted);
    forall k | 0 <= k < |t'.jobs| ensures JobOk(t', k) {
      assert k < |t.jobs| ==> JobOk(t, k);
    }
  }

  lemma DestroyOk(t: Task)
    requires Inv(t)
    ensures Inv(Destroyed(t))
  {
    var t' := Destroyed(t);
    forall k | 0 <= k < |t'.jobs| ensures JobOk(t', k) {
      assert JobOk(t, k);
    }
  }

  /** Steps that leave the jobs and their promise alone keep what is known of them. */
  lemma SameJobsOk(t: Task, t': Task)
    requires Inv(t) && t'.jobs == t.jobs && t'.current == t.current
    requires t'.destroyed == t.destroyed && t'.queueDestroyed == t.queueDestroyed
    requires PromisesOk(t')
    requires t'.interval.Some? ==>
               && IR.Inv(t'.interval.value) && t'.interval.value.promise != IR.Rejected
               && (t'.destroyed ==> t'.interval.value.aborted)
               && (t'.interval.value.running ==> t'.awaited.Some? && t'.awaited.value < |t'.jobs|)
    ensures Inv(t')
  {
    hide IR.Inv, PromisesOk;
    forall k | 0 <= k < |t'.jobs| ensures JobOk(t', k) {
      assert JobOk(t, k);
    }
  }

  lemma StartOk(t: Task, now: int)
    requires Inv(t)
    ensures Inv(Apply(t, Start(now)))
  {
    hide JobOk;
    SameJobsOk(t, Apply(t, Start(now)));
  }

  lemma ResumeCallOk(t: Task, k: nat)
    requires Inv(t) && k < |t.calls|
    ensures Inv(ResumeCall(t, k))
  {
    hide JobOk, IR.Apply;
    var t' := ResumeCall(t, k);
    assert forall j :: 0 <= j < |t.calls| ==> t'.calls[j].awaited == t.calls[j].awaited;
    assert t.calls[k].awaited.Some? && !t.starts[t.calls[k].awaited.value] ==> t.interval.Some?;
    SameJobsOk(t, t');
  }

  lemma IntervalOk(t: Task, now: int)
    requires Inv(t)
    ensures Inv(Apply(t, IntervalResumes(now)))
  {
    hide JobOk;
    SameJobsOk(t, Apply(t, IntervalResumes(now)));
  }

  lemma ForgetOk(t: Task, i: nat)
    requires Inv(t)
    ensures Inv(Apply(t, Forget(i)))
  {
    hide IR.Inv, PromisesOk;
    var t' := Apply(t, Forget(i));
    assert PromisesOk(t') by { PromisesFrame(t, t'); }
    forall k | 0 <= k < |t'.jobs| ensures JobOk(t', k) {
      assert JobOk(t, k);
    }
  }

  lemma PromisesFrame(t: Task, t': Task)
    requires t'.stored == t.stored && t'.starts == t.starts && t'.calls == t.calls
    requires t'.destroyed == t.destroyed && t'.interval == t.interval
    ensures PromisesOk(t) ==> PromisesOk(t')
  {
  }

  lemma TimerOk(t: Task, now: int)
    requires Inv(t)
    ensures Inv(Apply(t, TimerFires(now)))
  {
    AddJobOk(t, false);
    if t.interval.Some? {
      var i := t.interval.value;
      assert IR.Apply(i, IR.TimerFires(now)) != i ==> !i.aborted;
      var t', u := Apply(t, TimerFires(now)), AddJob(t, false);
      forall k | 0 <= k < |t'.jobs| && t' != t ensures JobOk(t', k) {
        assert JobOk(u, k);
      }
    }
  }

  lemma ApplyOk(t: Task, e: Event)
    requires Inv(t)
    ensures Inv(Apply(t, e))
  {
    hide Inv, JobOk, IR.Apply;
    if e.TimerFires? {
      TimerOk(t, e.now);
    } else if e.ForceRun? {
      AddJobOk(t, e.signalAborted);
    } else if e.DestroyTask? || e.DestroyQueue? {
      DestroyOk(t);
      FieldsOk(Destroyed(t), true, t.executions);
      if e.DestroyTask? {
        CallOk(Destroyed(t));
      }
    } else if e.CallerAborts? || e.JobTaken? || e.JobEnds? {
      JobStepOk(t, e);
    } else if e.Start? {
      StartOk(t, e.now);
    } else if e.IntervalResumes? {
      IntervalOk(t, e.now);
    } else if e.Forget? {
      ForgetOk(t, e.job);
    } else if e.DestroyResumes? && e.call < |t.calls| {
      ResumeCallOk(t, e.call);
    }
  }

  lemma CallOk(t: Task)
    requires Inv(t) && t.destroyed
    ensures Inv(t.(calls := t.calls + [Call(t.stored, Open)]))
  {
    forall k | 0 <= k < |t.jobs| ensures JobOk(t.(calls := t.calls + [Call(t.stored, Open)]), k) {
      assert JobOk(t, k);
    }
  }

  /** The invariant does not depend on the count of executions, nor, once destroyed, on the queue. */
  lemma FieldsOk(t: Task, queueDestroyed: bool, executions: nat)
    requires queueDestroyed ==> t.destroyed
    ensures var t' := t.(queueDestroyed := queueDestroyed, executions := executions); Inv(t) ==> Inv(t')
  {
    var t' := t.(queueDestroyed := queueDestroyed, executions := executions);
    forall k | 0 <= k < |t.jobs| && Inv(t) ensures JobOk(t', k) {
      assert JobOk(t, k);
    }
  }

  lemma JobStepOk(t: Task, e: Event)
    requires Inv(t) && (e.CallerAborts? || e.JobTaken? || e.JobEnds?)
    ensures Inv(Apply(t, e))
  {
    if e.job < |t.jobs| {
      var j := t.jobs[e.job];
      if e.CallerAborts? && j.phase != Done {
        SetJobOk(t, e.job, j.(aborted := true));
      } else if e.JobTaken? && j.phase == Waiting {
        SetJobOk(t, e.job, j.(phase := if j.aborted then Done else Executing));
        FieldsOk(SetJob(t, e.job, j.(phase := Executing)), t.queueDestroyed, t.executions + 1);
      } else if e.JobEnds? && j.phase == Executing {
        SetJobOk(t, e.job, j.(phase := Done));
      }
    }
  }

  lemma DestroyedStays(t: Task, e: Event)
    requires Inv(t) && t.destroyed
    ensures Apply(t, e).destroyed && Apply(t, e).executions == t.executions
  {
    hide IR.Apply;
    if e.JobTaken? && e.job < |t.jobs| {
      assert JobOk(t, e.job);
    }
  }

  lemma {:induction false} RunOk(t: Task, events: seq<Event>)
    requires Inv(t)
    ensures Inv(Run(t, events))
    ensures t.destroyed ==> Run(t, events).destroyed && Run(t, events).executions == t.executions
  {
    if events != [] {
      RunOk(t, events[..|events| - 1]);
      ApplyOk(Run(t, events[..|events| - 1]), events[|events| - 1]);
      if t.destroyed {
        DestroyedStays(Run(t, events[..|events| - 1]), events[|events| - 1]);
      }
    }
  }

  // ----- main results -----

  /** Any mix of `start` and forced runs: at most one job executes at a time, the one whose promise is shared. */
  lemma OneExecutionAtATime(period: nat, events: seq<Event>, i: nat, j: nat)
    requires var t := Run(NewTask(period), events);
             i < |t.jobs| && j < |t.jobs| && t.jobs[i].phase == Executing && t.jobs[j].phase == Executing
    ensures i == j && Run(NewTask(period), events).current == Some(i)
  {
    RunOk(NewTask(period), events);
    var t := Run(NewTask(period), events);
    assert JobOk(t, i) && JobOk(t, j);
  }

  lemma {:induction false} RunAppend(t: Task, first: seq<Event>, second: seq<Event>)
    ensures Run(t, first + second) == Run(Run(t, first), second)
  {
    if second == [] {
      assert first + second == first;
    } else {
      var n := |first + second|;
      assert (first + second)[..n - 1] == first + second[..|second| - 1];
      RunAppend(t, first, second[..|second| - 1]);
    }
  }

  /** After `destroy`, of the task or of its queue, no execution begins, whatever is still waiting. */
  lemma NoExecutionAfterDestroy(period: nat, before: seq<Event>, destroy: Event, later: seq<Event>)
    requires destroy == DestroyTask || destroy == DestroyQueue
    ensures Run(NewTask(period), before + [destroy] + later).executions == Run(NewTask(period), before).executions
  {
    var t := Run(NewTask(period), before);
    RunOk(NewTask(period), before);
    assert (before + [destroy])[..|before|] == before;
    ApplyOk(t, destroy);
    RunAppend(NewTask(period), before + [destroy], later);
    RunOk(Apply(t, destroy), later);
  }

  /** The interval itself never fails: its promise, once settled, is resolved, and it has no run under way. */
  lemma IntervalPromiseResolves(period: nat, events: seq<Event>)
    ensures var t := Run(NewTask(period), events);
            t.interval.Some? && t.interval.value.promise != IR.Pending ==>
              t.interval.value.promise == IR.Resolved && t.interval.value.aborted && !t.interval.value.running
  {
    RunOk(NewTask(period), events);
  }

  /**
   * A call of `destroy` that has ended was rejected exactly if the promise it awaited was stored by a `start` that
   * found the signal aborted.
   */
  lemma DestroyRejectsIff(period: nat, events: seq<Event>, k: nat)
    requires var t := Run(NewTask(period), events); k < |t.calls| && t.calls[k].ending != Open
    ensures var t := Run(NewTask(period), events); var awaited := t.calls[k].awaited;
            && (awaited.Some? ==> awaited.value < |t.starts|)
            && (t.calls[k].ending == Failed <==> awaited.Some? && t.starts[awaited.value])
  {
    RunOk(NewTask(period), events);
  }

  predicate IsDestroy(e: Event) { e == DestroyTask || e == DestroyQueue }

  /** Some `start` comes after the task or its queue was destroyed. */
  ghost predicate StartsLate(events: seq<Event>) {
    exists i, j :: 0 <= i < j < |events| && IsDestroy(events[i]) && events[j].Start?
  }

  lemma StepFlags(t: Task, e: Event)
    ensures Apply(t, e).destroyed <==> t.destroyed || IsDestroy(e)
    ensures Apply(t, e).starts == t.starts || (e.Start? && Apply(t, e).starts == t.starts + [t.destroyed])
  {
    hide IR.Apply;
  }

  ghost predicate AnyDestroy(events: seq<Event>) {
    exists i :: 0 <= i < |events| && IsDestroy(events[i])
  }

  lemma LateSnoc(front: seq<Event>, e: Event)
    ensures AnyDestroy(front + [e]) <==> AnyDestroy(front) || IsDestroy(e)
    ensures StartsLate(front) || (AnyDestroy(front) && e.Start?) ==> StartsLate(front + [e])
  {
    var events := front + [e];
    assert events[|front|] == e && forall i :: 0 <= i < |front| ==> events[i] == front[i];
  }

  lemma {:induction false} OnlyLateStartsFindAborted(period: nat, events: seq<Event>)
    ensures Run(NewTask(period), events).destroyed <==> AnyDestroy(events)
    ensures true in Run(NewTask(period), events).starts ==> StartsLate(events)
  {
    hide Apply, AnyDestroy, StartsLate, IsDestroy;
    if events == [] {
      NothingDestroyed();
    } else {
      var front, e := events[..|events| - 1], events[|events| - 1];
      OnlyLateStartsFindAborted(period, front);
      StepFlags(Run(NewTask(period), front), e);
      LateSnoc(front, e);
      assert events == front + [e];
    }
  }

  lemma NothingDestroyed()
    ensures !AnyDestroy([])
  {
  }

  /** So `destroy` never fails on a task that is not started after it, or its queue, was destroyed. */
  lemma DestroySucceedsWithoutLateStart(period: nat, events: seq<Event>, k: nat)
    requires !StartsLate(events) && k < |Run(NewTask(period), events).calls|
    ensures Run(NewTask(period), events).calls[k].ending != Failed
  {
    OnlyLateStartsFindAborted(period, events);
    RunOk(NewTask(period), events);
  }

  /** And it fails, again and again, when the queue was destroyed before `start`: no exception, a rejected promise. */
  lemma DestroyFailsAfterLateStart(period: nat, now: int)
    ensures var late := [DestroyQueue, Start(now)];
            var t := Run(NewTask(period), late + [DestroyTask, DestroyResumes(0), DestroyTask, DestroyResumes(1)]);
            && Settled(Run(NewTask(period), late), 0) == IR.Rejected
            && t.stored == Some(0) && t.calls == [Call(Some(0), Failed), Call(Some(0), Failed)]
  {
    var t0 := NewTask(period);
    var late := [DestroyQueue, Start(now)];
    RunSnoc(t0, [], DestroyQueue);
    RunSnoc(t0, [DestroyQueue], Start(now));
    assert [] + [DestroyQueue] == [DestroyQueue] && [DestroyQueue] + [Start(now)] == late;
    hide Run;
    var t := Run(t0, late);
    assert t.destroyed && t.stored == Some(0) && t.starts == [true] && t.calls == [];
    var once, u := DestroyAgain(period, late, t);
    var twice, v := DestroyAgain(period, once, u);
    assert twice == late + [DestroyTask, DestroyResumes(0), DestroyTask, DestroyResumes(1)];
  }

  lemma RunSnoc(t: Task, events: seq<Event>, e: Event)
    ensures Run(t, events + [e]) == Apply(Run(t, events), e)
  {
    assert (events + [e])[..|events|] == events;
  }

  /** With the rejected promise stored, another `destroy` fails on it and leaves it there. */
  lemma DestroyAgain(period: nat, events: seq<Event>, t: Task) returns (longer: seq<Event>, u: Task)
    requires Run(NewTask(period), events) == t && t.stored == Some(0) && t.starts == [true]
    ensures longer == events + [DestroyTask, DestroyResumes(|t.calls|)]
    ensures Run(NewTask(period), longer) == u && u.stored == Some(0) && u.starts == [true]
    ensures u.calls == t.calls + [Call(Some(0), Failed)]
  {
    hide Run, IR.Apply;
    RunSnoc(NewTask(period), events, DestroyTask);
    RunSnoc(NewTask(period), events + [DestroyTask], DestroyResumes(|t.calls|));
    longer := events + [DestroyTask, DestroyResumes(|t.calls|)];
    assert longer == events + [DestroyTask] + [DestroyResumes(|t.calls|)];
    u := Run(NewTask(period), longer);
  }

  // ----- runs that nothing disturbs -----

  lemma Extend(r: Task, events: seq<Event>, t: Task, e: Event) returns (longer: seq<Event>, u: Task)
    requires Run(r, events) == t
    ensures longer == events + [e] && u == Apply(t, e) && Run(r, longer) == u
  {
    hide Apply;
    longer, u := events + [e], Apply(t, e);
    RunSnoc(r, events, e);
  }

  /** Nothing is under way and nothing is destroyed. */
  predicate Idle(t: Task) {
    !t.destroyed && !t.queueDestroyed && t.current.None?
  }

  /** A job that the queue takes executes the task once, and is forgotten when it has ended. */
  lemma JobExecutes(r: Task, before: seq<Event>, t: Task, i: nat) returns (events: seq<Event>, u: Task)
    requires Run(r, before) == t && i < |t.jobs| && t.jobs[i] == Job(Waiting, false) && t.current == Some(i)
    ensures events == before + [JobTaken(i), JobEnds(i), Forget(i)] && Run(r, events) == u
    ensures u == t.(jobs := t.jobs[i := Job(Done, false)], current := None, executions := t.executions + 1)
  {
    hide Run;
    events, u := Extend(r, before, t, JobTaken(i));
    events, u := Extend(r, events, u, JobEnds(i));
    assert u.jobs == t.jobs[i := Job(Done, false)];
    events, u := Extend(r, events, u, Forget(i));
  }

  /** A forced run executes the task once, whether or not an interval was begun, and leaves the interval alone. */
  lemma ForcedRunExecutes(t: Task) returns (events: seq<Event>)
    requires Idle(t)
    ensures var i := |t.jobs|; events == [ForceRun(false), JobTaken(i), JobEnds(i), Forget(i)]
    ensures var u := Run(t, events);
            u == t.(jobs := t.jobs + [Job(Done, false)], executions := t.executions + 1)
  {
    hide Run;
    var i, u := |t.jobs|, t;
    assert Run(t, []) == t by { RunNothing(t); }
    events, u := Extend(t, [], t, ForceRun(false));
    events, u := JobExecutes(t, events, u, i);
    assert u.jobs == t.jobs + [Job(Done, false)];
  }

  lemma RunNothing(t: Task)
    ensures Run(t, []) == t
  {
  }

  /** One turn of the interval: the due timer makes a job, and its end arms the timer for a full period later. */
  lemma TimedRunExecutes(t: Task, fired: int, ended: int) returns (events: seq<Event>)
    requires Idle(t) && t.interval.Some? && IR.Inv(t.interval.value) && !t.interval.value.aborted
    requires t.interval.value.Armed() && t.interval.value.timer.value <= fired
    ensures var i := |t.jobs|;
            events == [TimerFires(fired), JobTaken(i), JobEnds(i), Forget(i), IntervalResumes(ended)]
    ensures var u := Run(t, events);
            && u.executions == t.executions + 1 && Idle(u) && u.jobs == t.jobs + [Job(Done, false)]
            && u.interval.Some? && !u.interval.value.running && !u.interval.value.aborted
            && u.interval.value.timer == Some(ended + t.interval.value.period) && u.awaited == None
            && u.interval.value.starts == t.interval.value.starts + 1
  {
    hide Run;
    var i, u := |t.jobs|, t;
    assert Run(t, []) == t by { RunNothing(t); }
    events, u := Extend(t, [], t, TimerFires(fired));
    assert u.jobs == t.jobs + [Job(Waiting, false)] && u.current == Some(i) && u.awaited == Some(i);
    events, u := JobExecutes(t, events, u, i);
    events, u := Extend(t, events, u, IntervalResumes(ended));
  }

  /** A due timer that finds a run under way waits for that one instead of making a job. */
  lemma TimerJoinsARun(t: Task, fired: int)
    requires t.current.Some? && t.interval.Some? && t.interval.value.Armed() && t.interval.value.timer.value <= fired
    ensures var u := Apply(t, TimerFires(fired));
            && u.jobs == t.jobs && u.current == t.current && u.awaited == t.current
            && u.interval.Some? && u.interval.value.running && !u.interval.value.Armed()
  {
  }

  /** A job whose caller gives up before the queue takes it never executes. */
  lemma AbortedJobIsSkipped(t: Task, i: nat)
    requires i < |t.jobs| && t.jobs[i].phase == Waiting
    ensures var u := Run(t, [CallerAborts(i), JobTaken(i)]);
            u == t.(jobs := t.jobs[i := Job(Done, true)])
  {
    RunNothing(t);
    hide Run;
    var events, u := Extend(t, [], t, CallerAborts(i));
    events, u := Extend(t, events, u, JobTaken(i));
    assert events == [CallerAborts(i), JobTaken(i)];
    assert u.jobs == t.jobs[i := Job(Done, true)];
  }

  /** Destroying the task or the queue aborts the interval and every unfinished job, and no job is added after it. */
  lemma DestroyAborts(t: Task, e: Event, signalAborted: bool)
    requires IsDestroy(e)
    ensures var u := Apply(t, e);
            && u.destroyed && u.queueDestroyed == (t.queueDestroyed || e == DestroyQueue)
            && |u.jobs| == |t.jobs|
            && (forall i :: 0 <= i < |t.jobs| ==> u.jobs[i].phase == t.jobs[i].phase
                                                  && (u.jobs[i].phase != Done ==> u.jobs[i].aborted))
            && (u.interval.Some? <==> t.interval.Some?) && (u.interval.Some? ==> u.interval.value.aborted)
            && Apply(u, ForceRun(signalAborted)) == u
  {
  }

  /** A call of `destroy` that is open ends as the promise that it awaits, and not before; what has ended stays. */
  lemma DestroyCallEnds(t: Task, k: nat)
    requires k < |t.calls|
    ensures var c, u := t.calls[k], Apply(t, DestroyResumes(k));
            var outcome := if c.awaited.None? then IR.Resolved else Settled(t, c.awaited.value);
            if c.ending != Open || outcome == IR.Pending then u == t
            else && |u.calls| == |t.calls| && u.calls[k].awaited == c.awaited
                 && u.calls[k].ending == (if outcome == IR.Resolved then Fulfilled else Failed)
                 && u.stored == (if outcome == IR.Resolved then None else t.stored)
  {
  }

  /** `destroy` waits for the execution that the interval has under way, and is fulfilled when that has ended. */
  lemma DestroyWaitsForTheRun(t: Task, i: nat, now: int)
    requires Inv(t) && !t.destroyed && t.stored.Some? && !t.starts[t.stored.value]
    requires t.interval.Some? && t.interval.value.running && t.awaited == Some(i) && t.jobs[i].phase == Executing
    ensures var k := |t.calls|;
            var begun := Run(t, [DestroyTask, DestroyResumes(k)]);
            var ended := Run(t, [DestroyTask, DestroyResumes(k), JobEnds(i), IntervalResumes(now), DestroyResumes(k)]);
            && k < |begun.calls| && begun.calls[k].ending == Open
            && k < |ended.calls| && ended.calls[k].ending == Fulfilled && ended.stored == None
  {
    hide Run, Apply, Inv, IR.Inv;
    var k := |t.calls|;
    RunNothing(t);
    var events, u := Extend(t, [], t, DestroyTask);
    assert events == [DestroyTask];
    CallAwaits(t, i);
    events, u := Extend(t, events, u, DestroyResumes(k));
    assert events == [DestroyTask, DestroyResumes(k)];
    events, u := WaitingCallEnds(t, events, u, i, k, now);
    assert events == [DestroyTask, DestroyResumes(k), JobEnds(i), IntervalResumes(now), DestroyResumes(k)];
  }

  lemma CallAwaits(t: Task, i: nat)
    requires Inv(t) && !t.destroyed && t.stored.Some? && !t.starts[t.stored.value]
    requires t.interval.Some? && t.interval.value.running && t.awaited == Some(i) && t.jobs[i].phase == Executing
    ensures var k, u := |t.calls|, Apply(Apply(t, DestroyTask), DestroyResumes(|t.calls|));
            && |u.calls| == k + 1 && u.calls[k] == Call(t.stored, Open) && u.starts == t.starts
            && i < |u.jobs| && u.jobs[i].phase == Executing && u.awaited == Some(i)
            && u.interval.Some? && u.interval.value.running && u.interval.value.aborted
            && u.interval.value.promise == IR.Pending
    ensures t.stored.value < |t.starts|
  {
    var u := Apply(t, DestroyTask);
    assert t.interval.value.promise == IR.Pending;
    assert u.calls[|t.calls|] == Call(t.stored, Open) && u.jobs[i].phase == Executing;
    assert Settled(u, t.stored.value) == IR.Pending;
  }

  lemma WaitingCallEnds(r: Task, before: seq<Event>, t: Task, i: nat, k: nat, now: int)
    returns (events: seq<Event>, u: Task)
    requires Run(r, before) == t && i < |t.jobs| && t.jobs[i].phase == Executing && t.awaited == Some(i)
    requires t.interval.Some? && t.interval.value.running && t.interval.value.aborted
    requires t.interval.value.promise == IR.Pending
    requires k < |t.calls| && t.calls[k].ending == Open && t.calls[k].awaited.Some?
    requires t.calls[k].awaited.value < |t.starts| && !t.starts[t.calls[k].awaited.value]
    ensures events == before + [JobEnds(i), IntervalResumes(now), DestroyResumes(k)] && Run(r, events) == u
    ensures k < |u.calls| && u.calls[k].ending == Fulfilled && u.stored == None
  {
    hide Run;
    events, u := Extend(r, before, t, JobEnds(i));
    events, u := Extend(r, events, u, IntervalResumes(now));
    assert u.interval.value.promise == IR.Resolved;
    events, u := Extend(r, events, u, DestroyResumes(k));
  }
}
