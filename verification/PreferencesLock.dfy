/**
 * `updatePreferences`: read, modify and write under one lock, for any number of concurrent calls on
 * one agent. packages/api/src/agent.ts.
 */
module PreferencesLock {
  import opened Prelude
  import opened SavedFeeds

  /** One call of `updatePreferences`. */
  type Caller = nat

  /** What each call's callback makes of the preferences it is given; None is `false`. */
  type Callbacks<!P> = (Caller, P) -> Option<P>

  /** Where a call is. `landed` says whether its callback's result is on the server. */
  datatype Pc<P> =
    | Calling
    | Holding
    | Fetched(prefs: P)
    | Putting(prefs: P)
    | Leaving(landed: bool)
    | Done

  datatype Entry = Entry(caller: Caller, landed: bool)

  /** `order` and `log` record who took the lock, and how each call that has released it ended. */
  datatype State<P> = State(
    server: P, lock: Option<Caller>, pcs: map<Caller, Pc<P>>, order: seq<Caller>, log: seq<Entry>)

  /** A call fails when a request fails, before or after it took effect, or the callback throws. */
  datatype Event =
    | Acquire(c: Caller)
    | Get(c: Caller)
    | Evaluate(c: Caller)
    | Put(c: Caller)
    | Fail(c: Caller)
    | Release(c: Caller)

  function PcOf<P>(s: State<P>, c: Caller): Pc<P> {
    if c in s.pcs then s.pcs[c] else Calling
  }

  function Go<P>(s: State<P>, c: Caller, pc: Pc<P>): State<P> {
    s.(pcs := s.pcs[c := pc])
  }

  /** One step; an event that is not possible in the state changes nothing. */
  function Apply<P>(cb: Callbacks<P>, s: State<P>, e: Event): State<P> {
    var c, pc := e.c, PcOf(s, e.c);
    if e.Acquire? && pc.Calling? && s.lock.None? then
      Go(s, c, Holding).(lock := Some(c), order := s.order + [c])
    else if e.Get? && pc.Holding? then Go(s, c, Fetched(s.server))
    else if e.Evaluate? && pc.Fetched? then
      var result := cb(c, pc.prefs);
      Go(s, c, if result.Some? then Putting(result.value) else Leaving(true))
    else if e.Put? && pc.Putting? then Go(s, c, Leaving(true)).(server := pc.prefs)
    else if e.Fail? && (pc.Holding? || pc.Fetched? || pc.Putting?) then Go(s, c, Leaving(false))
    else if e.Release? && pc.Leaving? then
      Go(s, c, Done).(lock := None, log := s.log + [Entry(c, pc.landed)])
    else s
  }

  function Start<P>(prefs: P): State<P> { State(prefs, None, map[], [], []) }

  function Run<P>(cb: Callbacks<P>, prefs: P, events: seq<Event>): State<P> {
    if events == [] then Start(prefs)
    else Apply(cb, Run(cb, prefs, events[..|events| - 1]), events[|events| - 1])
  }

  // ---------- Calls one at a time ----------

  /** The calls of `log` run one after the other, with nothing in between. */
  function Replay<P>(cb: Callbacks<P>, prefs: P, log: seq<Entry>): P {
    if log == [] then prefs
    else
      var before := Replay(cb, prefs, log[..|log| - 1]);
      var last := log[|log| - 1];
      if last.landed && cb(last.caller, before).Some? then cb(last.caller, before).value else before
  }

  function Callers(log: seq<Entry>): seq<Caller> {
    seq(|log|, i requires 0 <= i < |log| => log[i].caller)
  }

  /** The call that has had its effect but not released the lock yet. */
  function InFlight<P>(s: State<P>): seq<Entry> {
    if s.lock.Some? && PcOf(s, s.lock.value).Leaving?
    then [Entry(s.lock.value, PcOf(s, s.lock.value).landed)] else []
  }

  ghost predicate HolderOk<P>(cb: Callbacks<P>, prefs: P, s: State<P>, c: Caller) {
    var before := Replay(cb, prefs, s.log);
    var pc := PcOf(s, c);
    && s.order == Callers(s.log) + [c]
    && !pc.Calling? && !pc.Done?
    && (!pc.Leaving? ==> s.server == before)
    && (pc.Fetched? ==> pc.prefs == before)
    && (pc.Putting? ==> cb(c, before) == Some(pc.prefs))
    && (pc.Leaving? ==> s.server == Replay(cb, prefs, s.log + [Entry(c, pc.landed)]))
  }

  ghost predicate Inv<P>(cb: Callbacks<P>, prefs: P, s: State<P>) {
    && (s.lock.None? ==> s.server == Replay(cb, prefs, s.log) && s.order == Callers(s.log))
    && (s.lock.Some? ==> HolderOk(cb, prefs, s, s.lock.value))
    && (forall c: Caller :: s.lock != Some(c) ==> PcOf(s, c).Calling? || PcOf(s, c).Done?)
    && (forall c: Caller :: PcOf(s, c).Calling? <==> c !in s.order)
    && NoDuplicates(s.order)
  }

  lemma ReplaySnoc<P>(cb: Callbacks<P>, prefs: P, log: seq<Entry>, e: Entry)
    ensures var before := Replay(cb, prefs, log);
            Replay(cb, prefs, log + [e])
            == if e.landed && cb(e.caller, before).Some? then cb(e.caller, before).value else before
    ensures Callers(log + [e]) == Callers(log) + [e.caller]
  {
    assert (log + [e])[..|log|] == log;
  }

  lemma ApplyOk<P>(cb: Callbacks<P>, prefs: P, s: State<P>, e: Event)
    requires Inv(cb, prefs, s)
    ensures Inv(cb, prefs, Apply(cb, s, e))
  {
    hide Replay;
    var c := e.c;
    ReplaySnoc(cb, prefs, s.log, Entry(c, true));
    ReplaySnoc(cb, prefs, s.log, Entry(c, false));
    var t := Apply(cb, s, e);
    assert forall d :: d != c ==> PcOf(t, d) == PcOf(s, d);
  }

  lemma {:induction false} RunOk<P>(cb: Callbacks<P>, prefs: P, events: seq<Event>)
    ensures Inv(cb, prefs, Run(cb, prefs, events))
  {
    if events != [] {
      RunOk(cb, prefs, events[..|events| - 1]);
      ApplyOk(cb, prefs, Run(cb, prefs, events[..|events| - 1]), events[|events| - 1]);
    }
  }

  /**
   * However the calls interleave, the server holds what they give one at a time in the order in which
   * they took the lock, each call once; a failed call may count as not made.
   */
  lemma UpdatesAreSerial<P>(cb: Callbacks<P>, prefs: P, events: seq<Event>)
    ensures var s := Run(cb, prefs, events);
            var log := s.log + InFlight(s);
            && s.server == Replay(cb, prefs, log)
            && Callers(log) <= s.order && NoDuplicates(s.order)
            && (s.lock.None? ==> Callers(log) == s.order)
  {
    hide Run, Replay, Apply;
    RunOk(cb, prefs, events);
    var s := Run(cb, prefs, events);
    if InFlight(s) == [] {
      assert s.log + InFlight(s) == s.log;
    } else {
      ReplaySnoc(cb, prefs, s.log, InFlight(s)[0]);
    }
  }

  /** Only a call that failed is left out: without a failure of its own, a call's result is stored. */
  lemma {:induction false} OnlyFailuresAreLeftOut<P>(cb: Callbacks<P>, prefs: P, events: seq<Event>)
    ensures var s := Run(cb, prefs, events);
            && (forall c: Caller :: PcOf(s, c) == Leaving(false) ==> Fail(c) in events)
            && (forall e :: e in s.log && !e.landed ==> Fail(e.caller) in events)
  {
    if events != [] {
      var init, last := events[..|events| - 1], events[|events| - 1];
      OnlyFailuresAreLeftOut(cb, prefs, init);
      var s, t := Run(cb, prefs, init), Run(cb, prefs, events);
      assert forall e :: e in events <==> e in init || e == last;
      assert forall d :: d != last.c ==> PcOf(t, d) == PcOf(s, d);
    }
  }

  lemma Extend<P>(cb: Callbacks<P>, prefs: P, events: seq<Event>, s: State<P>, e: Event)
    returns (longer: seq<Event>, t: State<P>)
    requires Run(cb, prefs, events) == s
    ensures longer == events + [e] && t == Apply(cb, s, e) && Run(cb, prefs, longer) == t
  {
    hide Apply;
    longer, t := events + [e], Apply(cb, s, e);
    assert longer[..|events|] == events;
  }

  /** A call that finds the lock free, and no failure, stores what its callback makes of what is stored. */
  lemma CallLands<P>(cb: Callbacks<P>, prefs: P, before: seq<Event>, c: Caller) returns (events: seq<Event>)
    requires Run(cb, prefs, before).lock.None? && PcOf(Run(cb, prefs, before), c).Calling?
    ensures events == before + [Acquire(c), Get(c), Evaluate(c), Put(c), Release(c)]
    ensures var s, t := Run(cb, prefs, before), Run(cb, prefs, events); var result := cb(c, s.server);
            && t.server == (if result.Some? then result.value else s.server)
            && t.lock.None? && PcOf(t, c).Done? && t.log == s.log + [Entry(c, true)]
  {
    hide Run;
    var s := Run(cb, prefs, before);
    var t;
    events, t := Extend(cb, prefs, before, s, Acquire(c));
    events, t := Extend(cb, prefs, events, t, Get(c));
    events, t := Extend(cb, prefs, events, t, Evaluate(c));
    events, t := Extend(cb, prefs, events, t, Put(c));
    events, t := Extend(cb, prefs, events, t, Release(c));
  }

  /** A call that fails before its request took effect leaves the server alone and gives the lock back. */
  lemma FailedCallLeavesTheServer<P>(cb: Callbacks<P>, s: State<P>, c: Caller)
    requires var pc := PcOf(s, c); pc.Holding? || pc.Fetched? || pc.Putting?
    ensures var t := Apply(cb, Apply(cb, s, Fail(c)), Release(c));
            t.server == s.server && t.lock.None? && PcOf(t, c).Done? && t.log == s.log + [Entry(c, false)]
  {
  }

  // ---------- Saved-feed updates under the lock ----------

  /** Callbacks that are all saved-feed updates. */
  function FeedCallbacks(ops: Caller -> Operation): Callbacks<seq<Pref>> {
    (c: Caller, prefs: seq<Pref>) => Some(Updated(prefs, EditOf(ops(c))))
  }

  /** The saved feeds alone, as if nothing else were stored: each edit in turn, pinned feeds first. */
  function ItemsAfter(ops: Caller -> Operation, items: seq<SavedFeed>, log: seq<Entry>): seq<SavedFeed> {
    if log == [] then items
    else
      var before := ItemsAfter(ops, items, log[..|log| - 1]);
      var last := log[|log| - 1];
      if last.landed then PinnedFirst(EditOf(ops(last.caller))(before)) else before
  }

  ghost predicate AnyLanded(log: seq<Entry>) { exists e :: e in log && e.landed }

  lemma {:induction false} ReplayOfFeeds(ops: Caller -> Operation, prefs: seq<Pref>, log: seq<Entry>)
    ensures var after := Replay(FeedCallbacks(ops), prefs, log);
            && CurrentItems(after) == ItemsAfter(ops, CurrentItems(prefs), log)
            && Filter(after, IsUnrelated) == Filter(prefs, IsUnrelated)
            && (AnyLanded(log) ==> Filter(after, IsV2) == [FeedsV2(CurrentItems(after))])
  {
    hide Filter, CurrentItems, Updated, EditOf, PinnedFirst;
    if log != [] {
      var init, last := log[..|log| - 1], log[|log| - 1];
      ReplayOfFeeds(ops, prefs, init);
      var before := Replay(FeedCallbacks(ops), prefs, init);
      OneV2Remains(before, EditOf(ops(last.caller)));
      UnrelatedUntouched(before, EditOf(ops(last.caller)));
      assert forall e :: e in log <==> e in init || e == last;
    }
  }

  /**
   * In every run of concurrent saved-feed operations the stored feeds are those of the operations one
   * at a time in lock order, in the only V2 preference, and unrelated preferences stay as they were.
   */
  lemma SavedFeedsAreSerial(ops: Caller -> Operation, prefs: seq<Pref>, events: seq<Event>)
    ensures var s := Run(FeedCallbacks(ops), prefs, events);
            var log := s.log + InFlight(s);
            && CurrentItems(s.server) == ItemsAfter(ops, CurrentItems(prefs), log)
            && Filter(s.server, IsUnrelated) == Filter(prefs, IsUnrelated)
            && (AnyLanded(log) ==> Filter(s.server, IsV2) == [FeedsV2(CurrentItems(s.server))])
  {
    hide Run, Replay, InFlight, Filter, CurrentItems, ItemsAfter;
    UpdatesAreSerial(FeedCallbacks(ops), prefs, events);
    var s := Run(FeedCallbacks(ops), prefs, events);
    ReplayOfFeeds(ops, prefs, s.log + InFlight(s));
  }

  ghost predicate V1Grew(before: seq<Pref>, after: seq<Pref>) {
    && |Filter(before, IsV1)| == |Filter(after, IsV1)| == 1
    && Filter(before, IsV1)[0].FeedsV1? && Filter(after, IsV1)[0].FeedsV1?
    && (forall v :: v in Filter(before, IsV1)[0].saved ==> v in Filter(after, IsV1)[0].saved)
    && (forall v :: v in Filter(before, IsV1)[0].pinned ==> v in Filter(after, IsV1)[0].pinned)
  }

  lemma UpdateGrowsV1(prefs: seq<Pref>, edit: Edit)
    requires |Filter(prefs, IsV1)| == 1 && Filter(prefs, IsV1)[0].FeedsV1?
    ensures V1Grew(prefs, Updated(prefs, edit))
  {
    hide Updated, Dedupe;
    V1Afterwards(prefs, edit);
    FindLastFiltered(prefs, IsV1, IsValidV1);
    var v1 := Filter(prefs, IsV1)[0];
    assert Filter(prefs, IsV1) == [v1];
    assert FindLast([v1], IsValidV1) == if IsValidV1(v1) then Some(v1) else None;
    forall v
      ensures v in v1.saved ==> v in MergedV1(v1, NewItems(prefs, edit)).saved
      ensures v in v1.pinned ==> v in MergedV1(v1, NewItems(prefs, edit)).pinned
    {
      MergedHoldsBoth(v1, NewItems(prefs, edit), v);
    }
  }

  lemma {:induction false} ReplayGrowsV1(ops: Caller -> Operation, prefs: seq<Pref>, log: seq<Entry>)
    requires |Filter(prefs, IsV1)| == 1 && Filter(prefs, IsV1)[0].FeedsV1?
    ensures V1Grew(prefs, Replay(FeedCallbacks(ops), prefs, log))
  {
    hide Filter, Updated, EditOf;
    if log != [] {
      var init := log[..|log| - 1];
      ReplayGrowsV1(ops, prefs, init);
      UpdateGrowsV1(Replay(FeedCallbacks(ops), prefs, init), EditOf(ops(log[|log| - 1].caller)));
    }
  }

  /** An account with one legacy preference never loses an entry of it, in any run. */
  lemma LegacyEntriesAreNeverLost(ops: Caller -> Operation, prefs: seq<Pref>, events: seq<Event>)
    requires |Filter(prefs, IsV1)| == 1 && Filter(prefs, IsV1)[0].FeedsV1?
    ensures V1Grew(prefs, Run(FeedCallbacks(ops), prefs, events).server)
  {
    hide Run, Replay, InFlight, Filter;
    UpdatesAreSerial(FeedCallbacks(ops), prefs, events);
    var s := Run(FeedCallbacks(ops), prefs, events);
    ReplayGrowsV1(ops, prefs, s.log + InFlight(s));
  }

  // ----- the legacy preference covers the saved feeds -----

  /** Every feed and list of the items stands in `saved`, and every pinned one in `pinned`. */
  ghost predicate CoveredBy(v1: Pref, items: seq<SavedFeed>)
    requires v1.FeedsV1?
  {
    forall f :: f in items && FeedOrList(f) ==> f.value in v1.saved && (f.pinned ==> f.value in v1.pinned)
  }

  ghost predicate OneV1(prefs: seq<Pref>) {
    |Filter(prefs, IsV1)| == 1 && Filter(prefs, IsV1)[0].FeedsV1?
  }

  ghost predicate Covers(prefs: seq<Pref>) {
    OneV1(prefs) && CoveredBy(Filter(prefs, IsV1)[0], CurrentItems(prefs))
  }

  ghost predicate OneValidV1(prefs: seq<Pref>) {
    OneV1(prefs) && IsValidV1(Filter(prefs, IsV1)[0])
  }

  /** Feeds and lists have AT URIs. */
  predicate UriFeeds(items: seq<SavedFeed>) {
    forall f <- items :: FeedOrList(f) ==> f.value.AtUri?
  }

  predicate UriOperation(op: Operation) {
    (op.Overwrite? || op.Add?) ==> UriFeeds(op.feeds)
  }

  lemma LastValidOfOne(prefs: seq<Pref>)
    requires OneV1(prefs)
    ensures var v1 := Filter(prefs, IsV1)[0];
            FindLast(prefs, IsValidV1) == if IsValidV1(v1) then Some(v1) else None
  {
    FindLastFiltered(prefs, IsV1, IsValidV1);
    var v1 := Filter(prefs, IsV1)[0];
    assert Filter(prefs, IsV1) == [v1];
    assert FindLast([v1], IsValidV1) == if IsValidV1(v1) then Some(v1) else None;
  }

  lemma MergedCovers(v1: Pref, items: seq<SavedFeed>)
    requires v1.FeedsV1?
    ensures MergedV1(v1, items).FeedsV1? && CoveredBy(MergedV1(v1, items), items)
    ensures IsValidV1(v1) && UriFeeds(items) ==> IsValidV1(MergedV1(v1, items))
  {
    MergedIsV1(v1, items);
    var m := MergedV1(v1, items);
    hide MergedV1;
    forall f | f in items && FeedOrList(f) ensures f.value in m.saved && (f.pinned ==> f.value in m.pinned) {
      MergedHoldsBoth(v1, items, f.value);
      assert InV2(f.value, items, false) && (f.pinned ==> InV2(f.value, items, true));
    }
    if IsValidV1(v1) && UriFeeds(items) {
      forall v ensures v in m.saved || v in m.pinned ==> v.AtUri? {
        MergedHoldsBoth(v1, items, v);
      }
    }
  }

  /** With one V1 preference, an update leaves it covering the feeds exactly if it was valid or covers them anyway. */
  lemma UpdateCoversIff(prefs: seq<Pref>, edit: Edit)
    requires OneV1(prefs)
    ensures var v1 := Filter(prefs, IsV1)[0];
            && OneV1(Updated(prefs, edit))
            && (Covers(Updated(prefs, edit)) <==> IsValidV1(v1) || CoveredBy(v1, NewItems(prefs, edit)))
            && (IsValidV1(v1) && UriFeeds(NewItems(prefs, edit)) ==> OneValidV1(Updated(prefs, edit)))
  {
    hide Updated, MergedV1, Filter, IsValidV1;
    var v1, items := Filter(prefs, IsV1)[0], NewItems(prefs, edit);
    assert Filter(prefs, IsV1) == [v1];
    LastValidOfOne(prefs);
    V1Afterwards(prefs, edit);
    OneV2Remains(prefs, edit);
    SortIsPartition(edit(CurrentItems(prefs)));
    MergedCovers(v1, items);
  }

  lemma EditKeepsUris(op: Operation, items: seq<SavedFeed>)
    requires UriFeeds(items) && UriOperation(op)
    ensures UriFeeds(StableSort(EditOf(op)(items)))
  {
    var edited := EditOf(op)(items);
    SortIsPartition(edited);
    FilterMembers(edited, IsPinned);
    FilterMembers(edited, IsUnpinned);
    if op.Overwrite? {
      LastByIdMembers(op.feeds);
    } else if op.Remove? {
      FilterMembers(items, Staying(op.ids));
    } else if op.SetPinned? {
      forall f | f in edited ensures FeedOrList(f) ==> f.value.AtUri? {
        var i :| 0 <= i < |items| && f == Repinned(items[i], op.updates);
        assert items[i] in items;
      }
    }
  }

  lemma ValidV1Covers(prefs: seq<Pref>, edit: Edit)
    requires FindLast(prefs, IsValidV1).Some? && UriFeeds(NewItems(prefs, edit))
    ensures OneValidV1(Updated(prefs, edit)) && Covers(Updated(prefs, edit))
    ensures FindLast(Updated(prefs, edit), IsValidV1).Some?
  {
    hide Updated, MergedV1, Filter, FindLast, IsValidV1, UriFeeds;
    var v1 := FindLast(prefs, IsValidV1).value;
    V1Afterwards(prefs, edit);
    ValidIsV1(v1);
    OneV2Remains(prefs, edit);
    SortIsPartition(edit(CurrentItems(prefs)));
    MergedCovers(v1, NewItems(prefs, edit));
    LastValidOfOne(Updated(prefs, edit));
  }

  lemma ValidIsV1(v1: Pref)
    requires IsValidV1(v1)
    ensures v1.FeedsV1?
  {
  }

  /** A valid legacy preference stays, and covers the saved feeds from the first update on. */
  lemma {:induction false} ReplayCovers(ops: Caller -> Operation, prefs: seq<Pref>, log: seq<Entry>)
    requires FindLast(prefs, IsValidV1).Some? && UriFeeds(CurrentItems(prefs)) && forall c :: UriOperation(ops(c))
    ensures var after := Replay(FeedCallbacks(ops), prefs, log);
            && FindLast(after, IsValidV1).Some? && UriFeeds(CurrentItems(after))
            && (AnyLanded(log) ==> OneValidV1(after) && Covers(after))
  {
    hide Filter, FindLast, Updated, EditOf, UriFeeds, CurrentItems, UriOperation, Covers, OneValidV1;
    if log != [] {
      var init, last := log[..|log| - 1], log[|log| - 1];
      ReplayCovers(ops, prefs, init);
      var before := Replay(FeedCallbacks(ops), prefs, init);
      EditKeepsUris(ops(last.caller), CurrentItems(before));
      ValidV1Covers(before, EditOf(ops(last.caller)));
      OneV2Remains(before, EditOf(ops(last.caller)));
      SortIsPartition(EditOf(ops(last.caller))(CurrentItems(before)));
      assert forall e :: e in log <==> e in init || e == last;
    }
  }

  /**
   * With a valid V1 preference, and AT URIs for all feeds and lists that are stored or given, after every run in
   * which some call has landed the one V1 preference covers every feed and list of the V2 preference.
   */
  lemma LegacyCoversSavedFeeds(ops: Caller -> Operation, prefs: seq<Pref>, events: seq<Event>)
    requires FindLast(prefs, IsValidV1).Some? && UriFeeds(CurrentItems(prefs)) && forall c :: UriOperation(ops(c))
    ensures var s := Run(FeedCallbacks(ops), prefs, events);
            AnyLanded(s.log + InFlight(s)) ==> OneValidV1(s.server) && Covers(s.server)
  {
    hide Run, Replay, InFlight, Filter, FindLast, Covers, OneValidV1, UriFeeds, UriOperation;
    UpdatesAreSerial(FeedCallbacks(ops), prefs, events);
    var s := Run(FeedCallbacks(ops), prefs, events);
    ReplayCovers(ops, prefs, s.log + InFlight(s));
  }

  /** A stored V1 preference that is not valid stays as it is, and a feed that is added does not get there. */
  lemma InvalidV1BreaksCoverage(v1: Pref, uri: SavedFeed)
    requires v1.FeedsV1? && !IsValidV1(v1)
    requires uri.kind == Feed && uri.value.AtUri? && uri.value !in v1.saved
    ensures OneV1([v1]) && !Covers(Updated([v1], EditOf(Add([uri]))))
  {
    hide Updated, NewItems, CoveredBy, CurrentItems;
    assert Filter([v1], IsV1) == [v1];
    AddedLast([v1], CurrentItems([v1]), uri);
    UpdateCoversIff([v1], EditOf(Add([uri])));
    Uncovered(v1, NewItems([v1], EditOf(Add([uri]))), uri);
  }

  lemma Uncovered(v1: Pref, items: seq<SavedFeed>, f: SavedFeed)
    requires v1.FeedsV1? && f in items && FeedOrList(f) && f.value !in v1.saved
    ensures !CoveredBy(v1, items)
  {
  }

  lemma AddedLast(prefs: seq<Pref>, items: seq<SavedFeed>, f: SavedFeed)
    requires CurrentItems(prefs) == items
    ensures f in NewItems(prefs, EditOf(Add([f])))
  {
    SortIsPartition(items + [f]);
    FilterMembers(items + [f], IsPinned);
    FilterMembers(items + [f], IsUnpinned);
    assert (items + [f])[|items|] == f;
  }
}
