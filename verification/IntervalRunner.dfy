/**
 * `startInterval`: a timer and an asynchronous function that take turns until a signal is aborted.
 * A call-back that cannot happen in a state (a cleared timer, a function that is not running)
 * leaves it as it is.
 */
module IntervalRunners {
  import opened Prelude

  datatype Settlement = Pending | Resolved | Rejected

  datatype Interval = Interval(
    period: nat,
    timer: Option<int>,      // when the armed timer is due
    running: bool,           // the function has been called and has not finished
    aborted: bool,           // the interval's own controller
    promise: Settlement,
    starts: nat,             // how often the function was called
    lastEnd: int             // when it last finished, or the interval began
  ) {
    predicate Armed() { timer.Some? }

    function Settle(outcome: Settlement): Interval {
      if promise == Pending then this.(promise := outcome) else this
    }

    function Schedule(now: int): Interval {
      this.(timer := Some(now + period))
    }

    /** The `finally` block of a run. */
    function Finish(now: int): Interval {
      var ended := this.(running := false, lastEnd := now);
      if aborted then ended.Settle(Resolved) else ended.Schedule(now)
    }
  }

  function Begin(period: nat, now: int, immediately: bool): Interval {
    if immediately then Interval(period, None, true, false, Pending, 1, now)
    else Interval(period, Some(now + period), false, false, Pending, 0, now)
  }

  datatype Event =
    | TimerFires(now: int)
    | Returns(now: int)
    | Throws(now: int, isReason: bool)  // is the error, or its cause, the reason the signal would carry
    | InputAborts

  function Apply(i: Interval, e: Event): Interval {
    match e
    case TimerFires(now) =>
      if i.Armed() && i.timer.value <= now then i.(timer := None, running := true, starts := i.starts + 1) else i
    case Returns(now) =>
      if i.running then i.Finish(now) else i
    case Throws(now, isReason) =>
      if !i.running then i
      else if i.aborted && isReason then i.Finish(now)
      else i.Settle(Rejected).(aborted := true).Finish(now)
    case InputAborts =>
      if i.aborted then i
      else if i.Armed() then i.(aborted := true, timer := None).Settle(Resolved)
      else i.(aborted := true)
  }

  function Run(i: Interval, events: seq<Event>): Interval {
    if events == [] then i else Apply(Run(i, events[..|events| - 1]), events[|events| - 1])
  }

  /** The closure of `startInterval` as an object whose call-backs update it. */
  class IntervalRunner {
    const period: nat
    var timer: Option<int>
    var running: bool
    var aborted: bool
    var promise: Settlement
    var starts: nat
    var lastEnd: int

    function View(): Interval
      reads this
    {
      Interval(period, timer, running, aborted, promise, starts, lastEnd)
    }

    constructor (period: nat, now: int, immediately: bool)
      ensures View() == Begin(period, now, immediately)
    {
      this.period := period;
      running, aborted, promise, lastEnd := immediately, false, Pending, now;
      timer := if immediately then None else Some(now + period);
      starts := if immediately then 1 else 0;
    }

    method Settle(outcome: Settlement)
      modifies this`promise
      ensures View() == old(View()).Settle(outcome)
    {
      if promise == Pending {
        promise := outcome;
      }
    }

    method OnTimer(now: int)
      modifies this
      ensures View() == Apply(old(View()), TimerFires(now))
    {
      if timer.Some? && timer.value <= now {
        timer := None;
        running := true;
        starts := starts + 1;
      }
    }

    method OnFinally(now: int)
      modifies this
      ensures View() == old(View()).Finish(now)
    {
      running := false;
      lastEnd := now;
      if aborted {
        Settle(Resolved);
      } else {
        timer := Some(now + period);
      }
    }

    method OnReturn(now: int)
      modifies this
      ensures View() == Apply(old(View()), Returns(now))
    {
      if running {
        OnFinally(now);
      }
    }

    method OnThrow(now: int, isReason: bool)
      modifies this
      ensures View() == Apply(old(View()), Throws(now, isReason))
    {
      if running {
        if !(aborted && isReason) {
          Settle(Rejected);
          aborted := true;
        }
        OnFinally(now);
      }
    }

    method OnInputAbort()
      modifies this
      ensures View() == Apply(old(View()), InputAborts)
    {
      if !aborted {
        aborted := true;
        if timer.Some? {
          timer := None;
          Settle(Resolved);
        }
      }
    }
  }

  // ----- what every run keeps -----

  predicate Inv(i: Interval) {
    && (!i.aborted ==> i.Armed() != i.running && i.promise == Pending)
    && (i.aborted ==> !i.Armed() && (i.running <==> i.promise == Pending))
    && (i.Armed() ==> i.timer.value == i.lastEnd + i.period)
  }

  lemma {:induction false} RunOk(i: Interval, events: seq<Event>)
    requires Inv(i)
    ensures Inv(Run(i, events))
  {
    if events != [] {
      RunOk(i, events[..|events| - 1]);
    }
  }

  /**
   * Until the abort the timer is armed or the function runs, never both and never neither; the promise is settled
   * exactly when the interval is aborted and the last execution over. An armed timer is due a full period after the
   * last execution.
   */
  lemma TurnsAreExclusive(period: nat, now: int, immediately: bool, events: seq<Event>)
    ensures var i := Run(Begin(period, now, immediately), events);
            && !(i.Armed() && i.running)
            && (!i.aborted ==> i.promise == Pending)
            && (!i.aborted ==> i.Armed() || i.running)
            && (i.promise != Pending <==> i.aborted && !i.running)
            && (i.Armed() ==> i.timer == Some(i.lastEnd + period))
  {
    RunOk(Begin(period, now, immediately), events);
    PeriodStays(Begin(period, now, immediately), events);
  }

  lemma {:induction false} PeriodStays(i: Interval, events: seq<Event>)
    ensures Run(i, events).period == i.period
  {
    if events != [] {
      PeriodStays(i, events[..|events| - 1]);
    }
  }

  /** A step that starts the function finds it idle and the interval live, a full period after the last execution. */
  lemma StartsAreSpacedAndAlone(period: nat, now: int, immediately: bool, events: seq<Event>, e: Event)
    requires var i := Run(Begin(period, now, immediately), events); Apply(i, e).starts != i.starts
    ensures var i := Run(Begin(period, now, immediately), events);
            && e.TimerFires? && !i.running && !i.aborted && i.promise == Pending
            && i.lastEnd + i.period <= e.now && Apply(i, e).starts == i.starts + 1
  {
    RunOk(Begin(period, now, immediately), events);
  }

  /** After an abort no execution starts, and a settled promise keeps its outcome with nothing armed or running. */
  lemma {:induction false} NothingAfterAbort(i: Interval, events: seq<Event>)
    requires Inv(i) && i.aborted
    ensures var j := Run(i, events);
            && j.aborted && !j.Armed() && j.starts == i.starts
            && (i.promise != Pending ==> j.promise == i.promise && !j.running)
  {
    RunOk(i, events);
    if events != [] {
      NothingAfterAbort(i, events[..|events| - 1]);
      RunOk(i, events[..|events| - 1]);
    }
  }

  // ----- what ends an interval -----

  /** A running function fails, and no abort that had happened before is the reason. */
  predicate Unexplained(i: Interval, e: Event) {
    e.Throws? && i.running && !(i.aborted && e.isReason)
  }

  /** Such a failure is among the events of a run. */
  ghost predicate FailedUnexplained(i: Interval, events: seq<Event>) {
    exists k :: 0 <= k < |events| && Unexplained(Run(i, events[..k]), events[k])
  }

  lemma FailedSnoc(i: Interval, events: seq<Event>)
    requires events != []
    ensures var front, e := events[..|events| - 1], events[|events| - 1];
            FailedUnexplained(i, events) <==> FailedUnexplained(i, front) || Unexplained(Run(i, front), e)
  {
    var front := events[..|events| - 1];
    assert forall k :: 0 <= k < |front| ==> front[..k] == events[..k] && front[k] == events[k];
    if FailedUnexplained(i, front) {
      var k :| 0 <= k < |front| && Unexplained(Run(i, front[..k]), front[k]);
      assert Unexplained(Run(i, events[..k]), events[k]);
    }
  }

  /** An interval that begins ends as rejected exactly if its function failed for no reason of an abort. */
  lemma {:induction false} RejectedIffUnexplained(period: nat, now: int, immediately: bool, events: seq<Event>)
    ensures var i := Begin(period, now, immediately);
            Run(i, events).promise == Rejected <==> FailedUnexplained(i, events)
  {
    hide FailedUnexplained;
    var i := Begin(period, now, immediately);
    if events == [] {
      assert !FailedUnexplained(i, []) by { NoEventsNoFailure(i); }
    } else {
      RejectedIffUnexplained(period, now, immediately, events[..|events| - 1]);
      RunOk(i, events[..|events| - 1]);
      FailedSnoc(i, events);
    }
  }

  lemma NoEventsNoFailure(i: Interval)
    ensures !FailedUnexplained(i, [])
  {
  }

  /** It is aborted exactly if the input signal was, or its function has failed so. */
  lemma {:induction false} AbortedIff(period: nat, now: int, immediately: bool, events: seq<Event>)
    ensures var i := Begin(period, now, immediately);
            Run(i, events).aborted <==> InputAborts in events || FailedUnexplained(i, events)
  {
    hide FailedUnexplained;
    var i := Begin(period, now, immediately);
    if events == [] {
      NoEventsNoFailure(i);
    } else {
      var front, e := events[..|events| - 1], events[|events| - 1];
      AbortedIff(period, now, immediately, front);
      FailedSnoc(i, events);
      assert events == front + [e];
    }
  }

  /** From such a failure on nothing is armed, nothing runs and nothing starts, and the promise stays rejected. */
  lemma {:induction false} FailureStopsTheInterval(period: nat, now: int, immediately: bool, events: seq<Event>, k: nat)
    requires k < |events| && Unexplained(Run(Begin(period, now, immediately), events[..k]), events[k])
    ensures var i := Begin(period, now, immediately); var j := Run(i, events);
            && j.promise == Rejected && j.aborted && !j.Armed() && !j.running
            && j.starts == Run(i, events[..k]).starts
  {
    var i, front := Begin(period, now, immediately), events[..|events| - 1];
    if k == |front| {
      RunOk(i, front);
      assert front == events[..k];
    } else {
      assert front[..k] == events[..k];
      FailureStopsTheInterval(period, now, immediately, front, k);
    }
  }

  /** The function is called at once if that is wanted, otherwise when a full period has passed. */
  lemma FirstStart(period: nat, now: int, fired: int)
    ensures var i := Begin(period, now, true); i.running && !i.Armed() && i.starts == 1
    ensures var i := Begin(period, now, false); !i.running && i.timer == Some(now + period) && i.starts == 0
    ensures var i := Apply(Begin(period, now, false), TimerFires(fired));
            if now + period <= fired then i.running && i.starts == 1 else i == Begin(period, now, false)
  {
  }

  /**
   * A live interval whose function is under way: when it returns, the timer waits a full period from then on, and it
   * starts the function again exactly when that time has come.
   */
  lemma NextTurn(i: Interval, ended: int, fired: int)
    requires Inv(i) && !i.aborted && i.running
    ensures var j := Run(i, [Returns(ended), TimerFires(fired)]);
            && j.promise == Pending && !j.aborted && j.lastEnd == ended
            && if ended + i.period <= fired then j.running && !j.Armed() && j.starts == i.starts + 1
               else !j.running && j.timer == Some(ended + i.period) && j.starts == i.starts
  {
    assert [Returns(ended), TimerFires(fired)][..1] == [Returns(ended)];
    assert Run(i, [Returns(ended)]) == Apply(i, Returns(ended)) by { assert [Returns(ended)][..0] == []; }
  }

  /** An abort that comes while the function runs lets it finish and resolves then, whether it returns or objects. */
  lemma AbortedWhileRunning(i: Interval, end: Event)
    requires Inv(i) && !i.aborted && i.running && (end.Returns? || (end.Throws? && end.isReason))
    ensures var waiting, j := Run(i, [InputAborts]), Run(i, [InputAborts, end]);
            && waiting.promise == Pending && waiting.running
            && j.promise == Resolved && !j.running && !j.Armed() && j.starts == i.starts
  {
    assert [InputAborts, end][..1] == [InputAborts] && [InputAborts][..0] == [];
    assert Run(i, [InputAborts]) == Apply(i, InputAborts);
  }

  /** An abort that comes between two executions resolves at once. */
  lemma AbortedWhileArmed(i: Interval)
    requires Inv(i) && !i.aborted && i.Armed()
    ensures var j := Apply(i, InputAborts);
            j.promise == Resolved && j.aborted && !j.Armed() && !j.running && j.starts == i.starts
  {
  }
}
