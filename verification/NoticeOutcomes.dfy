/**
 * What the steps of the notice passes mean for a notice: which answers lead to which judgement, and
 * what becomes of a row whose handling is not interrupted.
 */
module NoticeOutcomes {
  import opened Prelude
  import opened DeletionNotices
  import opened NoticeQueues

  // ----- why a notice was judged -----

  /** What must have happened in state s, to the row at the head of a pass, for this judgement. */
  ghost predicate Justifies(s: System, e: Event, key: Key, generation: nat, reason: Reason) {
    && (e.Begin? || e.SpaceRead? || e.DeliveryDone?)
    && e.pass in s.passes && s.passes[e.pass].batch != []
    && var row := s.passes[e.pass].batch[0].row;
       && s.passes[e.pass].batch[0].key == key && row.generation == generation
       && match reason
          case Expired => e.Begin? && row.expiresAt <= s.now
          case Gone => e.SpaceRead? && (e.state == Active || e.state == Missing)
          case Delivered => e.DeliveryDone? && e.result == Accepted
          case Refused => e.DeliveryDone? && e.result == PermanentlyRefused
  }

  lemma NewJudgement(s: System, e: Event, i: nat)
    requires |s.log| <= i < |Apply(s, e).log| && Apply(s, e).log[i].Judged?
    ensures var r := Apply(s, e).log[i]; Justifies(s, e, r.key, r.generation, r.reason)
  {
  }

  lemma LogGrows(s: System, e: Event)
    ensures s.log <= Apply(s, e).log
  {
  }

  /**
   * Every judgement goes back to the answer that it reports: delivered only when the service accepted, refused only
   * when it refused for good, gone only when the space was active or missing, expired only after the expiry.
   */
  lemma {:induction false} JudgementsAreJustified(s: System, events: seq<Event>, i: nat) returns (k: nat)
    requires |s.log| <= i < |Run(s, events).log| && Run(s, events).log[i].Judged?
    ensures k < |events|
    ensures var r := Run(s, events).log[i];
            Justifies(Run(s, events[..k]), events[k], r.key, r.generation, r.reason)
  {
    hide Apply, Justifies;
    var front, e := events[..|events| - 1], events[|events| - 1];
    var t := Run(s, front);
    LogGrows(t, e);
    if i < |t.log| {
      k := JudgementsAreJustified(s, front, i);
      assert front[..k] == events[..k];
    } else {
      k := |events| - 1;
      NewJudgement(t, e, i);
    }
  }

  // ----- a row whose handling is not interrupted -----

  lemma Extend(r: System, events: seq<Event>, s: System, e: Event) returns (longer: seq<Event>, t: System)
    requires Run(r, events) == s
    ensures longer == events + [e] && t == Apply(s, e) && Run(r, longer) == t
  {
    hide Apply;
    longer, t := events + [e], Apply(s, e);
    assert longer[..|events|] == events;
  }

  /** The pass is at this stage of its first row. */
  predicate At(s: System, p: nat, batch: seq<Held>, stage: Stage) {
    p in s.passes && s.passes[p] == Pass(batch, stage) && batch != []
  }

  /** The time, the births and the table are the same. */
  predicate SameTable(s: System, t: System) {
    t.now == s.now && t.births == s.births && t.table == s.table
  }

  /** Where the first row is to be cleared, or to be postponed. */
  lemma Answers(r: System, before: seq<Event>, s: System, p: nat, batch: seq<Held>, w: World)
    returns (events: seq<Event>, t: System)
    requires Run(r, before) == s && At(s, p, batch, Between)
    ensures Run(r, events) == t && SameTable(s, t)
    ensures if IsFinal(w, batch[0].key, batch[0].row, s.now)
            then p in t.passes && t.passes[p].batch == batch && t.passes[p].stage.Clearing?
            else At(t, p, batch, Rescheduling)
    ensures t.passes.Keys == s.passes.Keys && forall q :: q in s.passes && q != p ==> t.passes[q] == s.passes[q]
  {
    hide Run, Delay;
    events, t := Extend(r, before, s, Begin(p));
    if s.now < batch[0].row.expiresAt {
      assert At(t, p, batch, Checking);
      events, t := Extend(r, events, t, SpaceRead(p, w.state(batch[0].key)));
      if w.state(batch[0].key) == Deleted {
        assert At(t, p, batch, Delivering);
        events, t := Extend(r, events, t, DeliveryDone(p, w.deliver(batch[0].key)));
      }
    }
  }

  /**
   * A row that is still in the table as it was read is settled as the answers say, no other row changes, and the
   * pass goes on with the rest of its batch.
   */
  lemma HandlingSettles(s: System, p: nat, batch: seq<Held>, w: World) returns (events: seq<Event>)
    requires At(s, p, batch, Between) && batch[0].key in s.table && s.table[batch[0].key] == batch[0].row
    ensures var t, h := Run(s, events), batch[0];
            && Settled(t.table, w, h.key, h.row, s.now) && t.table - {h.key} == s.table - {h.key}
            && t.passes == s.passes[p := Pass(batch[1..], Between)]
  {
    var t, h := s, batch[0];
    assert Run(s, []) == s;
    events, t := HandlingMoves(s, [], s, p, batch, w);
    RetryTimeBounds(h.row, s.now, w.random(h.key));
  }

  lemma HandlingMoves(r: System, before: seq<Event>, s: System, p: nat, batch: seq<Held>, w: World)
    returns (events: seq<Event>, t: System)
    requires Run(r, before) == s && At(s, p, batch, Between)
    ensures Run(r, events) == t && t.passes == s.passes[p := Pass(batch[1..], Between)]
    ensures var h := batch[0];
            t.table == if IsFinal(w, h.key, h.row, s.now) then ClearRow(s.table, h)
                       else RescheduleRow(s.table, h, s.now, w.random(h.key))
  {
    hide Run, IsFinal, ClearRow, RescheduleRow, RetryTime;
    var h, u := batch[0], s;
    events, u := Answers(r, before, s, p, batch, w);
    if IsFinal(w, h.key, h.row, s.now) {
      events, t := Extend(r, events, u, Clear(p));
    } else {
      events, t := Extend(r, events, u, Reschedule(p, w.random(h.key)));
    }
  }

  // ----- single steps -----

  /** A fresh row is due at once; a generation in use, or an expiry that has passed, stores nothing. */
  lemma EnqueueStoresAFreshRow(s: System, key: Key, generation: nat, expiresAt: int)
    ensures var t := Apply(s, Enqueue(key, generation, expiresAt));
            if generation !in s.births && s.now < expiresAt
            then t.table == s.table[key := Row(generation, 0, s.now, expiresAt)] && t.passes == s.passes
            else t == s
  {
  }

  /** A delivered notice that could not be cleared is postponed; any other failure to clear ends the pass. */
  lemma FailedClearing(s: System, p: nat, batch: seq<Held>, reason: Reason)
    requires At(s, p, batch, Clearing(reason))
    ensures var t := Apply(s, ClearFails(p));
            SameTable(s, t) && if reason == Delivered then At(t, p, batch, Rescheduling)
                               else t.passes == s.passes[p := Pass([], Between)]
  {
  }

  /** An idle pass takes what the query gives; a pass that stops drops what it has not handled; time passes. */
  lemma FetchStopAndTick(s: System, p: nat, asOf: int, batch: seq<Held>, elapsed: nat)
    requires p in s.passes
    ensures Apply(s, Tick(elapsed)) == s.(now := s.now + elapsed)
    ensures s.passes[p].batch == [] && asOf <= s.now && IsBatch(s.table, asOf, batch) ==>
              Apply(s, Fetch(p, asOf, batch)) == s.(passes := s.passes[p := Pass(batch, Between)])
    ensures Apply(s, Stop(p)) == s.(passes := s.passes[p := Pass([], Between)])
  {
  }
}
