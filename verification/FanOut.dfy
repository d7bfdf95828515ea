/**
 * `fanOut`: one writable input, any number of sinks that may push back or die. The write call-back
 * is held until every sink that pushed back has drained or died.
 */
module FanOuts {
  type Sink = nat
  type Chunk = nat

  datatype Fan = Fan(
    alive: set<Sink>,
    received: map<Sink, seq<Chunk>>,  // what was written to each sink
    blocked: set<Sink>,               // sinks whose `done` listener is registered
    waiting: int,
    input: seq<Chunk>,                // the chunks the input was asked to write
    callbacks: seq<bool>,             // for every call-back that fired, whether it carried an error
    ended: bool,
    finished: set<Sink>,              // sinks that were ended
    torn: set<Sink>                   // sinks that were destroyed by the fan-out
  )

  function NewFan(sinks: set<Sink>): Fan {
    Fan(sinks, map s | s in sinks :: [], {}, 0, [], [], false, {}, {})
  }

  datatype Event =
    | Write(chunk: Chunk, writable: set<Sink>, accepting: set<Sink>)
    | Drains(sink: Sink)
    | Dies(sink: Sink)                 // an 'error' or a 'close'
    | Final(writable: set<Sink>)
    | Destroy(writable: set<Sink>, failed: bool)

  /** A writable stream is given the next chunk only when the last one was called back, without an error. */
  predicate MayWrite(f: Fan) {
    |f.callbacks| == |f.input| && !f.ended && true !in f.callbacks
  }

  function Fire(f: Fan): Fan {
    f.(callbacks := f.callbacks + [f.alive == {}])
  }

  function Settle(f: Fan): Fan {
    var f' := f.(waiting := f.waiting - 1);
    if f'.waiting > 0 then f' else Fire(f')
  }

  function Done(f: Fan, s: Sink): Fan {
    if s in f.blocked then Settle(f.(blocked := f.blocked - {s})) else f
  }

  /** The loop of a write: the live sinks get the chunk, and those that push back are waited for. */
  function Written(f: Fan, chunk: Chunk, live: set<Sink>, accepting: set<Sink>): Fan {
    f.(alive := live,
       received := map s | s in f.received :: if s in live then f.received[s] + [chunk] else f.received[s],
       blocked := live - accepting,
       waiting := 1 + |live - accepting|,
       input := f.input + [chunk])
  }

  function Apply(f: Fan, e: Event): Fan {
    match e
    case Write(chunk, writable, accepting) =>
      if !MayWrite(f) then f
      else
        Settle(Written(f, chunk, f.alive * writable, accepting))
    case Drains(s) => Done(f, s)
    case Dies(s) => Done(f.(alive := f.alive - {s}), s)
    case Final(writable) =>
      if MayWrite(f) then f.(ended := true, finished := f.alive * writable) else f
    case Destroy(writable, failed) =>
      if !f.ended || failed then f.(torn := f.torn + f.alive * writable) else f
  }

  function Run(f: Fan, events: seq<Event>): Fan {
    if events == [] then f else Apply(Run(f, events[..|events| - 1]), events[|events| - 1])
  }

  /** After the chunk was offered to the given live sinks. */
  ghost function Offered(f: Fan, to: set<Sink>, chunk: Chunk, writable: set<Sink>, accepting: set<Sink>): Fan {
    f.(alive := f.alive - (to - writable),
       received := map s | s in f.received :: if s in to * writable then f.received[s] + [chunk] else f.received[s],
       blocked := to * writable - accepting,
       waiting := 1 + |to * writable - accepting|)
  }

  /** One turn of the loop over the live sinks. */
  ghost function OfferStep(f: Fan, s: Sink, chunk: Chunk, writable: bool, accepts: bool): Fan
    requires s in f.received
  {
    if !writable then f.(alive := f.alive - {s})
    else
      var f' := f.(received := f.received[s := f.received[s] + [chunk]]);
      if accepts then f' else f'.(blocked := f.blocked + {s}, waiting := f.waiting + 1)
  }

  lemma OfferedOne(f: Fan, to: set<Sink>, s: Sink, chunk: Chunk, writable: set<Sink>, accepting: set<Sink>)
    requires s !in to && s in f.received
    ensures var g := Offered(f, to, chunk, writable, accepting);
            && s in g.received && s !in g.blocked
            && Offered(f, to + {s}, chunk, writable, accepting) == OfferStep(g, s, chunk, s in writable, s in accepting)
  {
    var g, h := Offered(f, to, chunk, writable, accepting), Offered(f, to + {s}, chunk, writable, accepting);
    assert h.alive == if s in writable then g.alive else g.alive - {s};
    assert h.blocked == if s in writable && s !in accepting then g.blocked + {s} else g.blocked;
    assert h.received == if s in writable then g.received[s := g.received[s] + [chunk]] else g.received;
  }

  lemma OfferedNoneOrAll(f: Fan, chunk: Chunk, writable: set<Sink>, accepting: set<Sink>)
    requires MayWrite(f) && f.blocked == {}
    ensures var g := f.(input := f.input + [chunk], waiting := 1);
            && Offered(g, g.alive - g.alive, chunk, writable, accepting) == g
            && Apply(f, Write(chunk, writable, accepting)) == Settle(Offered(g, g.alive, chunk, writable, accepting))
  {
    var g := f.(input := f.input + [chunk], waiting := 1);
    assert g.alive - (g.alive - writable) == g.alive * writable;
    assert g.alive - g.alive == {} && {} * writable - accepting == {};
    assert Offered(g, {}, chunk, writable, accepting).received == g.received;
  }

  class FanOut {
    var alive: set<Sink>
    var received: map<Sink, seq<Chunk>>
    var blocked: set<Sink>
    var waiting: int
    var input: seq<Chunk>
    var callbacks: seq<bool>
    var ended: bool
    var finished: set<Sink>
    var torn: set<Sink>

    function View(): Fan
      reads this
    {
      Fan(alive, received, blocked, waiting, input, callbacks, ended, finished, torn)
    }

    constructor (sinks: set<Sink>)
      ensures View() == NewFan(sinks)
    {
      alive, received, blocked, waiting := sinks, map s | s in sinks :: [], {}, 0;
      input, callbacks, ended, finished, torn := [], [], false, {}, {};
    }

    method SettleOne()
      modifies this`waiting, this`callbacks
      ensures View() == Settle(old(View()))
    {
      waiting := waiting - 1;
      if waiting > 0 {
        return;
      }
      callbacks := callbacks + [alive == {}];
    }

    /** `writable` and `accepting` are what the sinks answer to `writable` and to `write`. */
    method WriteChunk(chunk: Chunk, writable: set<Sink>, accepting: set<Sink>)
      requires MayWrite(View()) && blocked == {} && alive <= received.Keys
      modifies this
      ensures View() == Apply(old(View()), Write(chunk, writable, accepting))
    {
      hide Offered, OfferStep, Apply, Settle;
      ghost var f := View();
      input := input + [chunk];
      waiting := 1;
      ghost var was := View();
      OfferedNoneOrAll(f, chunk, writable, accepting);
      var todo := alive;
      while todo != {}
        invariant View() == Offered(was, was.alive - todo, chunk, writable, accepting)
        invariant todo <= was.alive
        decreases todo
        modifies this`alive, this`received, this`blocked, this`waiting
      {
        var s :| s in todo;
        OfferedOne(was, was.alive - todo, s, chunk, writable, accepting);
        Offer(s, chunk, s in writable, s in accepting);
        assert was.alive - (todo - {s}) == was.alive - todo + {s};
        todo := todo - {s};
      }
      assert was.alive - todo == was.alive;
      SettleOne();
    }

    method Offer(s: Sink, chunk: Chunk, writable: bool, accepts: bool)
      requires s in received
      modifies this`alive, this`received, this`blocked, this`waiting
      ensures View() == OfferStep(old(View()), s, chunk, writable, accepts)
    {
      if !writable {
        alive := alive - {s};
        return;
      }
      received := received[s := received[s] + [chunk]];
      if !accepts {
        waiting := waiting + 1;
        blocked := blocked + {s};
      }
    }

    method OnDrain(s: Sink)
      modifies this`blocked, this`waiting, this`callbacks
      ensures View() == Apply(old(View()), Drains(s))
    {
      if s in blocked {
        blocked := blocked - {s};
        SettleOne();
      }
    }

    method OnDeath(s: Sink)
      modifies this`alive, this`blocked, this`waiting, this`callbacks
      ensures View() == Apply(old(View()), Dies(s))
    {
      alive := alive - {s};
      OnDrain(s);
    }
  }

  // ----- what every run keeps -----

  ghost predicate Inv(f: Fan, sinks: set<Sink>) {
    && f.received.Keys == sinks && f.alive <= sinks && f.blocked <= f.alive
    && (forall s :: s in sinks ==> f.received[s] <= f.input)
    && (forall s :: s in f.alive ==> f.received[s] == f.input)
    && f.waiting == |f.blocked|
    && |f.callbacks| == (if f.blocked == {} then |f.input| else |f.input| - 1)
    && (forall i :: 0 <= i < |f.callbacks| - 1 ==> !f.callbacks[i])
    && (f.blocked != {} ==> true !in f.callbacks)
    && (f.ended ==> f.blocked == {} && true !in f.callbacks && f.finished <= sinks
                    && forall s :: s in f.finished ==> f.received[s] == f.input)
  }

  lemma DoneOk(f: Fan, sinks: set<Sink>, s: Sink, alive: set<Sink>)
    requires Inv(f, sinks) && alive <= f.alive && f.blocked - {s} <= alive
    ensures Inv(Done(f.(alive := alive), s), sinks)
  {
    var f' := Done(f.(alive := alive), s);
    if s in f.blocked {
      assert |f.blocked| == |f.blocked - {s}| + 1;
      assert f.blocked - {s} == {} ==> |f.blocked - {s}| == 0;
    }
  }

  /** What every sink has received after a write, and which sinks are left. */
  lemma WrittenOk(f: Fan, sinks: set<Sink>, chunk: Chunk, live: set<Sink>, accepting: set<Sink>)
    requires Inv(f, sinks) && live <= f.alive
    ensures var g := Written(f, chunk, live, accepting);
            && g.received.Keys == sinks
            && (forall s :: s in sinks ==> g.received[s] <= g.input)
            && (forall s :: s in g.alive ==> g.received[s] == g.input)
  {
  }

  lemma SettledOk(f: Fan, sinks: set<Sink>, g: Fan)
    requires Inv(f, sinks) && MayWrite(f)
    requires g.callbacks == f.callbacks && g.ended == f.ended && |g.input| == |f.input| + 1
    requires g.received.Keys == sinks && g.alive <= sinks && g.blocked <= g.alive && g.waiting == 1 + |g.blocked|
    requires forall s :: s in sinks ==> g.received[s] <= g.input
    requires forall s :: s in g.alive ==> g.received[s] == g.input
    ensures Inv(Settle(g), sinks)
  {
    assert g.blocked == {} <==> |g.blocked| == 0;
  }

  lemma WriteOk(f: Fan, sinks: set<Sink>, chunk: Chunk, writable: set<Sink>, accepting: set<Sink>)
    requires Inv(f, sinks) && MayWrite(f)
    ensures Inv(Apply(f, Write(chunk, writable, accepting)), sinks)
  {
    hide Settle;
    WrittenOk(f, sinks, chunk, f.alive * writable, accepting);
    SettledOk(f, sinks, Written(f, chunk, f.alive * writable, accepting));
  }

  lemma ApplyOk(f: Fan, sinks: set<Sink>, e: Event)
    requires Inv(f, sinks)
    ensures Inv(Apply(f, e), sinks)
  {
    match e
    case Write(chunk, writable, accepting) =>
      if MayWrite(f) {
        WriteOk(f, sinks, chunk, writable, accepting);
      }
    case Drains(s) => DoneOk(f, sinks, s, f.alive);
    case Dies(s) => DoneOk(f, sinks, s, f.alive - {s});
    case Final(_) =>
    case Destroy(_, _) =>
  }

  lemma {:induction false} RunOk(sinks: set<Sink>, events: seq<Event>)
    ensures Inv(Run(NewFan(sinks), events), sinks)
  {
    if events != [] {
      RunOk(sinks, events[..|events| - 1]);
      ApplyOk(Run(NewFan(sinks), events[..|events| - 1]), sinks, events[|events| - 1]);
    }
  }

  // ----- main results -----

  /** Every sink has received a prefix of the input in order, and every sink still alive all of it. */
  lemma {:induction false} SinksReceivePrefixes(sinks: set<Sink>, events: seq<Event>, s: Sink)
    requires s in sinks
    ensures var f := Run(NewFan(sinks), events);
            && s in f.received && f.received[s] <= f.input
            && (s in f.alive ==> f.received[s] == f.input)
            && (f.ended && s in f.finished ==> f.received[s] == f.input)
  {
    RunOk(sinks, events);
  }

  /**
   * Every chunk is called back exactly once: all earlier ones have been, and the last one is still open exactly while
   * some sink that pushed back has neither drained nor died. Only the last call-back can carry an error.
   */
  lemma EveryWriteIsCalledBackOnce(sinks: set<Sink>, events: seq<Event>)
    ensures var f := Run(NewFan(sinks), events);
            && |f.input| - 1 <= |f.callbacks| <= |f.input|
            && (|f.callbacks| < |f.input| <==> f.blocked != {})
            && f.blocked <= f.alive
            && forall i :: 0 <= i < |f.callbacks| - 1 ==> !f.callbacks[i]
  {
    RunOk(sinks, events);
  }

  /** A step that fires a call-back leaves nobody waiting, and reports an error exactly if no sink is alive then. */
  lemma CallbackReportsSurvivors(sinks: set<Sink>, events: seq<Event>, e: Event)
    requires var f := Run(NewFan(sinks), events); Apply(f, e).callbacks != f.callbacks
    ensures var f := Run(NewFan(sinks), events); var f' := Apply(f, e);
            && |f'.callbacks| == |f.callbacks| + 1 && f.callbacks <= f'.callbacks
            && f'.blocked == {}
            && (f'.callbacks[|f.callbacks|] <==> f'.alive == {})
            && (forall s :: s in f'.alive ==> s in f'.received && f'.received[s] == f'.input)
  {
    hide Run;
    RunOk(sinks, events);
    StepFiresOnce(Run(NewFan(sinks), events), sinks, e);
  }

  lemma OneCallback(f: Fan, e: Event)
    requires Apply(f, e).callbacks != f.callbacks
    ensures Apply(f, e).callbacks == f.callbacks + [Apply(f, e).alive == {}]
    ensures |Apply(f, e).input| <= |f.input| + if |f.input| == |f.callbacks| then 1 else 0
  {
  }

  lemma StepFiresOnce(f: Fan, sinks: set<Sink>, e: Event)
    requires Inv(f, sinks) && Apply(f, e).callbacks != f.callbacks
    ensures var f' := Apply(f, e);
            && f'.callbacks == f.callbacks + [f'.alive == {}] && f'.blocked == {}
            && (forall s :: s in f'.alive ==> s in f'.received && f'.received[s] == f'.input)
  {
    hide Apply;
    ApplyOk(f, sinks, e);
    OneCallback(f, e);
  }

  /** A sink that pushed back stays waited for until it drains or dies itself. */
  lemma OnlyDrainOrDeathReleases(sinks: set<Sink>, events: seq<Event>, e: Event, s: Sink)
    requires var f := Run(NewFan(sinks), events); s in f.blocked && s !in Apply(f, e).blocked
    ensures e == Drains(s) || e == Dies(s)
  {
    RunOk(sinks, events);
  }

  /** A drain or a death releases the sink and no other, and fires the call-back if the sink was the last waited for. */
  lemma DrainOrDeathReleases(sinks: set<Sink>, events: seq<Event>, e: Event, s: Sink)
    requires e == Drains(s) || e == Dies(s)
    ensures var f, t := Run(NewFan(sinks), events), Run(NewFan(sinks), events + [e]);
            && t.blocked == f.blocked - {s}
            && t.callbacks == f.callbacks + if f.blocked == {s} then [t.alive == {}] else []
  {
    assert (events + [e])[..|events|] == events;
    RunOk(sinks, events);
    var f := Run(NewFan(sinks), events);
    if s in f.blocked {
      assert |f.blocked| == |f.blocked - {s}| + 1;
      assert f.blocked == {s} <==> f.blocked - {s} == {};
      assert f.blocked - {s} == {} <==> |f.blocked - {s}| == 0;
    }
  }

  /** A clean end leaves the sinks alone: they are only destroyed by a teardown with an error or before the end. */
  lemma CleanEndTearsNothingDown(f: Fan, e: Event)
    requires Apply(f, e).torn != f.torn
    ensures e.Destroy? && (e.failed || !f.ended) && Apply(f, e).torn <= f.torn + f.alive
  {
  }

  /** So in a run whose teardowns, if any, come after the end and without an error, no sink is ever destroyed. */
  lemma {:induction false} NoneDestroyedAfterCleanEnd(sinks: set<Sink>, events: seq<Event>)
    requires forall i :: 0 <= i < |events| && events[i].Destroy? ==>
               !events[i].failed && Run(NewFan(sinks), events[..i]).ended
    ensures Run(NewFan(sinks), events).torn == {}
  {
    if events != [] {
      var front, e := events[..|events| - 1], events[|events| - 1];
      assert forall i :: 0 <= i < |front| ==> front[i] == events[i] && front[..i] == events[..i];
      NoneDestroyedAfterCleanEnd(sinks, front);
      assert events[|front|] == e && events[..|front|] == front;
      if Apply(Run(NewFan(sinks), front), e).torn != Run(NewFan(sinks), front).torn {
        CleanEndTearsNothingDown(Run(NewFan(sinks), front), e);
      }
    }
  }

  // ----- what a sink can count on -----

  /**
   * A write that the input may make: a live sink that is writable stays alive and gets the chunk, and is waited for
   * when it pushes back; every other sink gets nothing and is not alive.
   */
  lemma WhoGetsTheChunk(f: Fan, chunk: Chunk, writable: set<Sink>, accepting: set<Sink>, s: Sink)
    requires |f.callbacks| == |f.input| && !f.ended && true !in f.callbacks
    ensures var t := Apply(f, Write(chunk, writable, accepting));
            && t.input == f.input + [chunk] && t.received.Keys == f.received.Keys
            && (s in t.alive <==> s in f.alive && s in writable)
            && (s in t.blocked <==> s in f.alive && s in writable && s !in accepting)
            && (s in f.received ==> t.received[s] == f.received[s] + if s in t.alive then [chunk] else [])
  {
  }

  /** While a call-back is open, after the end, or after an error the input is given no chunk. */
  lemma NoWriteOutOfTurn(f: Fan, chunk: Chunk, writable: set<Sink>, accepting: set<Sink>)
    requires |f.callbacks| != |f.input| || f.ended || true in f.callbacks
    ensures Apply(f, Write(chunk, writable, accepting)) == f
  {
  }

  /** What drops a sink: its own death, or a write that finds it not writable. */
  predicate Drops(f: Fan, e: Event, s: Sink) {
    e == Dies(s)
    || (e.Write? && |f.callbacks| == |f.input| && !f.ended && true !in f.callbacks && s !in e.writable)
  }

  ghost predicate Dropped(f: Fan, events: seq<Event>, s: Sink) {
    exists k :: 0 <= k < |events| && Drops(Run(f, events[..k]), events[k], s)
  }

  lemma DroppedSnoc(f: Fan, events: seq<Event>, s: Sink)
    requires events != []
    ensures var front, e := events[..|events| - 1], events[|events| - 1];
            Dropped(f, events, s) <==> Dropped(f, front, s) || Drops(Run(f, front), e, s)
  {
    hide Drops, Run;
    var front := events[..|events| - 1];
    assert forall k :: 0 <= k < |front| ==> front[..k] == events[..k] && front[k] == events[k];
    if Dropped(f, front, s) {
      var k :| 0 <= k < |front| && Drops(Run(f, front[..k]), front[k], s);
      assert Drops(Run(f, events[..k]), events[k], s);
    }
  }

  lemma DropStep(f: Fan, e: Event, s: Sink)
    ensures s in Apply(f, e).alive <==> s in f.alive && !Drops(f, e, s)
  {
  }

  /** A sink is alive exactly as long as it has not died and every write has found it writable. */
  lemma {:induction false} AliveUntilDropped(sinks: set<Sink>, events: seq<Event>, s: Sink)
    ensures s in Run(NewFan(sinks), events).alive <==> s in sinks && !Dropped(NewFan(sinks), events, s)
  {
    hide Dropped, Drops, Apply;
    if events == [] {
      NothingDropped(NewFan(sinks), s);
    } else {
      AliveUntilDropped(sinks, events[..|events| - 1], s);
      DroppedSnoc(NewFan(sinks), events, s);
      DropStep(Run(NewFan(sinks), events[..|events| - 1]), events[|events| - 1], s);
    }
  }

  lemma NothingDropped(f: Fan, s: Sink)
    ensures !Dropped(f, [], s)
  {
  }

  /** A sink that is not alive stays so and is given nothing any more. */
  lemma {:induction false} DeadSinksGetNothing(f: Fan, events: seq<Event>, s: Sink)
    requires s !in f.alive && s in f.received
    ensures var t := Run(f, events); s !in t.alive && s in t.received && t.received[s] == f.received[s]
  {
    hide Apply;
    if events != [] {
      DeadSinksGetNothing(f, events[..|events| - 1], s);
      DeadStep(Run(f, events[..|events| - 1]), events[|events| - 1], s);
    }
  }

  lemma DeadStep(f: Fan, e: Event, s: Sink)
    requires s !in f.alive && s in f.received
    ensures var t := Apply(f, e); s !in t.alive && s in t.received && t.received[s] == f.received[s]
  {
  }

  /** The end of the input ends exactly the live sinks that are writable; a teardown destroys exactly those, if any. */
  lemma EndAndTeardown(f: Fan, writable: set<Sink>, failed: bool, s: Sink)
    ensures |f.callbacks| == |f.input| && !f.ended && true !in f.callbacks ==>
              var t := Apply(f, Final(writable));
              && t.ended && (s in t.finished <==> s in f.alive && s in writable)
              && t.alive == f.alive && t.received == f.received
    ensures var t := Apply(f, Destroy(writable, failed));
            (s in t.torn <==> s in f.torn || ((failed || !f.ended) && s in f.alive && s in writable))
  {
  }
}
