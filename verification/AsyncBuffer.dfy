/**
 * `AsyncBuffer`: producers push and resolve the current promise; one consumer awaits it, takes an
 * item or, finding none, replaces the promise. The consumer is the generator `events`, cut into the
 * spans between its awaits and yields.
 */
module AsyncBuffers {
  import opened Prelude

  // JavaScript tests the head of the buffer for truth, so a falsy item looks like no item.
  datatype Item = Truthy(value: nat) | Falsy

  datatype Pc =
    | Suspended              // not started, or stopped at a yield
    | Waiting(promise: nat)  // awaiting
    | Returned
    | Threw

  datatype State = State(
    buffer: seq<Item>,
    promise: nat,            // the current promise
    settled: set<nat>,       // the promises that were resolved
    closed: bool,
    toThrow: Option<nat>,
    maxSize: nat,            // 0: no limit
    consumer: Pc,
    pushed: seq<Item>,
    yielded: seq<Item>
  )

  function NewBuffer(maxSize: nat): State {
    State([], 0, {}, false, None, maxSize, Suspended, [], [])
  }

  datatype Event =
    | Push(items: seq<Item>)      // push and pushMany
    | Throw(error: Option<nat>)   // None: a falsy error
    | Close
    | Next                        // the consumer asks for an item
    | Resume                      // the awaited promise has been resolved

  function Resolve(s: State): State {
    s.(settled := s.settled + {s.promise})
  }

  /** From the top of the loop to the next await, or to the end. */
  function Top(s: State): State {
    if s.closed && s.buffer == [] then s.(consumer := if s.toThrow.Some? then Threw else Returned)
    else s.(consumer := Waiting(s.promise))
  }

  function Apply(s: State, e: Event): State {
    match e
    case Push(items) => Resolve(s.(buffer := s.buffer + items, pushed := s.pushed + items))
    case Throw(error) => Resolve(s.(toThrow := error, closed := true))
    case Close => Resolve(s.(closed := true))
    case Next => if s.consumer == Suspended then Top(s) else s
    case Resume =>
      if !s.consumer.Waiting? || s.consumer.promise !in s.settled then s
      else if s.toThrow.Some? then s.(consumer := Threw)
      else if s.maxSize != 0 && |s.buffer| > s.maxSize then s.(consumer := Threw)
      else if s.buffer != [] && s.buffer[0].Truthy? then
        s.(buffer := s.buffer[1..], yielded := s.yielded + [s.buffer[0]], consumer := Suspended)
      else Top(s.(promise := s.promise + 1))
  }

  function Run(s: State, events: seq<Event>): State {
    if events == [] then s else Apply(Run(s, events[..|events| - 1]), events[|events| - 1])
  }

  class AsyncBuffer {
    var buffer: seq<Item>
    var promise: nat
    var settled: set<nat>
    var closed: bool
    var toThrow: Option<nat>
    const maxSize: nat
    var consumer: Pc
    ghost var pushed: seq<Item>
    var yielded: seq<Item>

    ghost function View(): State
      reads this
    {
      State(buffer, promise, settled, closed, toThrow, maxSize, consumer, pushed, yielded)
    }

    constructor (maxSize: nat)
      ensures View() == NewBuffer(maxSize)
    {
      this.maxSize := maxSize;
      buffer, promise, settled, closed, toThrow := [], 0, {}, false, None;
      consumer, pushed, yielded := Suspended, [], [];
    }

    method PushMany(items: seq<Item>)
      modifies this`buffer, this`settled, this`pushed
      ensures View() == Apply(old(View()), Push(items))
    {
      for i := 0 to |items|
        invariant buffer == old(buffer) + items[..i] && settled == old(settled) && pushed == old(pushed) + items[..i]
      {
        buffer := buffer + [items[i]];
        pushed := pushed + [items[i]];
      }
      settled := settled + {promise};
    }

    method ThrowError(error: Option<nat>)
      modifies this`toThrow, this`closed, this`settled
      ensures View() == Apply(old(View()), Throw(error))
    {
      toThrow, closed, settled := error, true, settled + {promise};
    }

    method CloseBuffer()
      modifies this`closed, this`settled
      ensures View() == Apply(old(View()), Close)
    {
      closed, settled := true, settled + {promise};
    }

    method LoopTop()
      modifies this`consumer
      ensures View() == Top(old(View()))
    {
      if closed && |buffer| == 0 {
        consumer := if toThrow.Some? then Threw else Returned;
      } else {
        consumer := Waiting(promise);
      }
    }

    /** The span of the generator after its await. */
    method OnResume()
      requires consumer.Waiting? && consumer.promise in settled
      modifies this`buffer, this`promise, this`consumer, this`yielded
      ensures View() == Apply(old(View()), Resume)
    {
      if toThrow.Some? || (maxSize != 0 && |buffer| > maxSize) {
        consumer := Threw;
        return;
      }
      if |buffer| > 0 && buffer[0].Truthy? {
        yielded := yielded + [buffer[0]];
        buffer := buffer[1..];
        consumer := Suspended;
      } else {
        promise := promise + 1;
        LoopTop();
      }
    }
  }

  // ----- what every run keeps -----

  predicate Finished(s: State) {
    s.consumer == Returned || s.consumer == Threw
  }

  /** There is something to do, but no resolved promise says so. */
  predicate Unannounced(s: State) {
    !Finished(s) && (s.buffer != [] || s.closed) && s.promise !in s.settled
  }

  predicate Inv(s: State) {
    && (s.consumer.Waiting? ==> s.consumer.promise == s.promise)
    && s.yielded + s.buffer == s.pushed
    && (forall p :: p in s.settled ==> p <= s.promise)
    && (Unannounced(s) ==> s.buffer != [] && s.buffer[0] == Falsy)
  }

  lemma ApplyOk(s: State, e: Event)
    requires Inv(s)
    ensures Inv(Apply(s, e))
  {
    var s' := Apply(s, e);
    if e.Push? {
      assert s.yielded + (s.buffer + e.items) == (s.yielded + s.buffer) + e.items;
    } else if e.Resume? && s'.yielded != s.yielded {
      assert s.buffer == [s.buffer[0]] + s.buffer[1..];
      assert (s.yielded + [s.buffer[0]]) + s.buffer[1..] == s.yielded + s.buffer;
    }
  }

  lemma {:induction false} RunOk(maxSize: nat, events: seq<Event>)
    ensures Inv(Run(NewBuffer(maxSize), events))
  {
    if events != [] {
      RunOk(maxSize, events[..|events| - 1]);
      ApplyOk(Run(NewBuffer(maxSize), events[..|events| - 1]), events[|events| - 1]);
    }
  }

  // ----- main results -----

  /** The consumer sleeps: it awaits a promise that nothing has resolved. */
  predicate Asleep(s: State) {
    s.consumer.Waiting? && s.consumer.promise !in s.settled
  }

  predicate WorkPending(s: State) {
    s.buffer != [] || s.closed
  }

  /**
   * No wake-up is lost: a consumer that sleeps with work pending has a falsy item at the head of the buffer. So with
   * truthy items it never does.
   */
  lemma NoLostWakeUp(maxSize: nat, events: seq<Event>)
    ensures var s := Run(NewBuffer(maxSize), events);
            && (Asleep(s) && WorkPending(s) ==> s.buffer != [] && s.buffer[0] == Falsy)
            && (Falsy !in s.pushed ==> !(Asleep(s) && WorkPending(s)))
  {
    RunOk(maxSize, events);
    var s := Run(NewBuffer(maxSize), events);
    if s.buffer != [] {
      assert s.pushed[|s.yielded|] == s.buffer[0];
      assert s.buffer[0] in s.pushed;
    }
  }

  /**
   * And the other way round: a consumer that is woken with a falsy item at the head, and not stopped by an error or
   * the size limit, falls asleep again with that item pending. With any other head it does not.
   */
  lemma FalsyHeadLosesTheWakeUp(maxSize: nat, events: seq<Event>)
    requires var s := Run(NewBuffer(maxSize), events);
             && s.consumer.Waiting? && s.consumer.promise in s.settled
             && s.toThrow.None? && !(maxSize != 0 && |s.buffer| > maxSize)
    ensures var s := Run(NewBuffer(maxSize), events); var s' := Run(NewBuffer(maxSize), events + [Resume]);
            Asleep(s') && WorkPending(s') <==> s.buffer != [] && s.buffer[0] == Falsy
  {
    RunOk(maxSize, events);
    KeepsLimit(maxSize, events);
    assert (events + [Resume])[..|events|] == events;
  }

  /** Such a run, for every limit: one falsy item is pushed to a buffer with one consumer. */
  lemma FalsySleepIsReached(maxSize: nat)
    ensures var s := Run(NewBuffer(maxSize), [Push([Falsy]), Next, Resume]);
            Asleep(s) && WorkPending(s) && s.buffer == [Falsy]
  {
    var s := NewBuffer(maxSize);
    var events := [Push([Falsy]), Next, Resume];
    assert events[..2][..1][..0] == [] && events[..2][..1] == [Push([Falsy])] && events[..2] == [Push([Falsy]), Next];
    assert Run(s, events[..1]) == Apply(s, Push([Falsy])) by { assert events[..1] == events[..2][..1]; }
    assert Run(s, events[..2]) == Apply(Apply(s, Push([Falsy])), Next);
  }

  lemma {:induction false} KeepsLimit(maxSize: nat, events: seq<Event>)
    ensures Run(NewBuffer(maxSize), events).maxSize == maxSize
  {
    if events != [] {
      KeepsLimit(maxSize, events[..|events| - 1]);
    }
  }

  /** What was yielded is always a prefix of what was pushed. */
  lemma {:induction false} YieldsAPrefix(maxSize: nat, events: seq<Event>)
    ensures var s := Run(NewBuffer(maxSize), events); s.yielded <= s.pushed && s.pushed == s.yielded + s.buffer
  {
    RunOk(maxSize, events);
  }

  /** When the generator returns, the buffer was closed without an error and everything pushed has been yielded. */
  lemma ReturnDeliversEverything(maxSize: nat, events: seq<Event>, e: Event)
    requires var s := Run(NewBuffer(maxSize), events); s.consumer != Returned && Apply(s, e).consumer == Returned
    ensures var s' := Apply(Run(NewBuffer(maxSize), events), e);
            s'.yielded == s'.pushed && s'.closed && s'.toThrow.None?
  {
    RunOk(maxSize, events);
    ApplyOk(Run(NewBuffer(maxSize), events), e);
  }

  // ----- what a step gives the consumer -----

  /** The consumer can take a step of its own: it is asked for an item, or the promise it awaits is resolved. */
  predicate Moves(s: State, e: Event) {
    || (e == Next && s.consumer == Suspended)
    || (e == Resume && s.consumer.Waiting? && s.consumer.promise in s.settled)
  }

  predicate OverLimit(s: State) {
    s.maxSize != 0 && |s.buffer| > s.maxSize
  }

  /**
   * How the generator ends. It throws exactly when it is woken with an error there or the buffer over its limit, or
   * when it is asked with an error there after the end; it returns exactly at the end without one.
   */
  lemma EndsExactly(s: State, e: Event)
    requires !Finished(s)
    ensures Apply(s, e).consumer == Threw
            <==> Moves(s, e) && if e == Resume then s.toThrow.Some? || OverLimit(s)
                                else s.toThrow.Some? && s.closed && s.buffer == []
    ensures Apply(s, e).consumer == Returned <==> Moves(s, e) && s.toThrow.None? && s.closed && s.buffer == []
  {
  }

  /** An item is yielded exactly when the generator is woken without an error and a truthy one is at the head. */
  lemma YieldsExactly(s: State, e: Event)
    ensures var head := e == Resume && Moves(s, e) && s.toThrow.None? && !OverLimit(s)
                        && s.buffer != [] && s.buffer[0].Truthy?;
            if head then Apply(s, e).yielded == s.yielded + [s.buffer[0]] && Apply(s, e).consumer == Suspended
            else Apply(s, e).yielded == s.yielded
  {
  }

  /** What producers do arrives, and wakes a consumer that awaits the current promise. */
  lemma ProducersWake(s: State, e: Event)
    requires e.Push? || e.Throw? || e.Close?
    requires s.consumer.Waiting? ==> s.consumer.promise == s.promise
    ensures var t := Apply(s, e);
            && !Asleep(t) && t.consumer == s.consumer && t.promise in t.settled
            && t.buffer == s.buffer + (if e.Push? then e.items else [])
            && t.closed == (s.closed || !e.Push?) && t.toThrow == if e.Throw? then e.error else s.toThrow
  {
  }

  function Asks(n: nat): seq<Event> {
    if n == 0 then [] else [Next, Resume] + Asks(n - 1)
  }

  lemma AskOnce(s: State, before: seq<Event>, r: State)
    requires Run(r, before) == s && s.consumer == Suspended && s.promise in s.settled
    requires s.toThrow.None? && !OverLimit(s) && s.buffer != [] && s.buffer[0].Truthy?
    ensures Run(r, before + [Next, Resume]) == s.(yielded := s.yielded + [s.buffer[0]], buffer := s.buffer[1..])
  {
    var asked, woken := before + [Next], before + [Next, Resume];
    assert asked[..|before|] == before && Run(r, asked) == Apply(s, Next);
    assert woken[..|asked|] == asked;
  }

  /** A consumer that keeps asking gets all the items there are, in order, when none is falsy and nothing stops it. */
  lemma {:induction false} AskingDrains(s: State, before: seq<Event>, r: State)
    requires Run(r, before) == s && s.consumer == Suspended && s.promise in s.settled
    requires s.toThrow.None? && !OverLimit(s) && Falsy !in s.buffer
    ensures Run(r, before + Asks(|s.buffer|)) == s.(yielded := s.yielded + s.buffer, buffer := [])
    decreases |s.buffer|
  {
    hide Run;
    if s.buffer == [] {
      assert before + Asks(0) == before && s.yielded + [] == s.yielded;
    } else {
      var head, rest := s.buffer[0], s.buffer[1..];
      assert head in s.buffer && s.buffer == [head] + rest;
      AskOnce(s, before, r);
      AskingDrains(s.(yielded := s.yielded + [head], buffer := rest), before + [Next, Resume], r);
      assert before + [Next, Resume] + Asks(|rest|) == before + Asks(|s.buffer|);
      assert s.yielded + [head] + rest == s.yielded + s.buffer;
    }
  }
}
