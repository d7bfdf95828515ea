/**
 * What the steps of the KEM key backfill achieve: what the lease row excludes, and what becomes of an
 * account when its worker is not interrupted.
 */
module KemKeyAccounts {
  import opened Prelude
  import opened KemKeyBackfill

  // ----- the lease row -----

  /** The row cannot be had: it is complete, or another worker's and not expired. */
  predicate Excluded(row: Lease, id: WorkerId, now: int) {
    row.completed || (row.owner != Some(id) && now < row.expiresAt)
  }

  /** Claiming the row: a worker that is excluded changes nothing and waits; any other has it until the lease ends. */
  lemma ClaimRespectsLease(s: System, id: WorkerId, now: int, leaseMs: int)
    requires AtPc(s, id, Acquiring)
    ensures var row := s.shared.lease; var t := Apply(s, Act(id, Acquire(now, leaseMs)));
            if Excluded(row, id, now) then t.shared == s.shared && AtPc(t, id, Idle)
            else t.shared == s.shared.(lease := Lease(Some(id), now + leaseMs, false)) && AtPc(t, id, Scanning)
  {
  }

  function AfterAssertion(pc: Pc): Pc {
    if pc == PendingLease then PendingLink else if pc == PublishLease then Publishing else InstallLink
  }

  /** Asserting it before a key is linked, published or installed: the same, and a lost lease ends the attempt. */
  lemma AssertionRespectsLease(s: System, id: WorkerId, now: int, leaseMs: int)
    requires id in s.workers && s.workers[id].pc in {PendingLease, PublishLease, InstallLease}
    ensures var row, pc := s.shared.lease, s.workers[id].pc; var t := Apply(s, Act(id, AssertLease(now, leaseMs)));
            if Excluded(row, id, now) then t.shared == s.shared && AtPc(t, id, Releasing)
            else t.shared == s.shared.(lease := Lease(Some(id), now + leaseMs, false))
                 && AtPc(t, id, AfterAssertion(pc))
  {
  }

  /** A worker's own steps that may give its lease up before `until`, and others' clocks that say it has ended. */
  predicate Disturbs(e: Event, w: WorkerId, until: int) {
    e.Act? &&
    if e.id == w then
      || e.action.FinishLease? || e.action.FinishFails?
      || (e.action.Acquire? && e.action.now + e.action.leaseMs < until)
      || (e.action.AssertLease? && e.action.now + e.action.leaseMs < until)
    else
      || (e.action.Acquire? && until <= e.action.now)
      || (e.action.AssertLease? && until <= e.action.now)
  }

  predicate Holds(s: System, w: WorkerId, until: int) {
    s.shared.lease.owner == Some(w) && until <= s.shared.lease.expiresAt && !s.shared.lease.completed
  }

  lemma HolderKeepsStep(s: System, e: Event, w: WorkerId, until: int)
    requires Holds(s, w, until) && !Disturbs(e, w, until)
    ensures Holds(Apply(s, e), w, until)
  {
  }

  /**
   * Until its lease ends a worker keeps the row, whatever any number of others do meanwhile, as long as it does not
   * finish and no clock runs ahead of that end.
   */
  lemma {:induction false} HolderKeepsLease(s: System, events: seq<Event>, w: WorkerId, until: int)
    requires Holds(s, w, until) && forall e :: e in events ==> !Disturbs(e, w, until)
    ensures Holds(Run(s, events), w, until)
  {
    hide Apply, Holds, Disturbs;
    if events != [] {
      var front, e := events[..|events| - 1], events[|events| - 1];
      assert e in events && forall x :: x in front ==> x in events;
      HolderKeepsLease(s, front, w, until);
      HolderKeepsStep(Run(s, front), e, w, until);
    }
  }

  // ----- an account, uninterrupted -----

  /** The worker is at this point of its account, with the row its own. */
  predicate Serving(s: System, id: WorkerId, did: Did, pc: Pc) {
    AtPc(s, id, pc) && s.workers[id].did == did && s.shared.lease.owner == Some(id) && !s.shared.lease.completed
  }

  /** The account is left and counted as a failure or not; the scan goes on. */
  predicate Left(s: System, t: System, id: WorkerId, failures: nat) {
    && AtPc(t, id, Scanning) && id in s.workers && t.workers[id].failed == s.workers[id].failed + failures
    && t.workers[id].page == s.workers[id].page
  }

  /** Key files, stores and rows; what is left of the shared state is the lease and the log. */
  predicate SameFiles(a: Shared, b: Shared) {
    a.pending == b.pending && a.installed == b.installed && a.stores == b.stores && a.rows == b.rows
  }

  lemma MissingStoreIsSkipped(s: System, id: WorkerId, did: Did, candidate: Key)
    requires Serving(s, id, did, StoreCheck) && did !in s.shared.stores
    ensures var t := Apply(s, Act(id, Advance(candidate))); t.shared == s.shared && Left(s, t, id, 0)
  {
  }

  /** A key that other code has made, and no pending file: the account is left alone. */
  lemma KeyedAccountIsLeftAlone(s: System, id: WorkerId, did: Did) returns (events: seq<Event>)
    requires Serving(s, id, did, StoreCheck) && did in s.shared.stores
    requires did !in s.shared.pending && did in s.shared.installed
    ensures var t := Run(s, events); t.shared == s.shared && Left(s, t, id, 0)
  {
    RunNothing(s);
    hide Run, ScanStep, LeaseStep, PublishStep;
    events := Extend(s, [], Act(id, Advance(0)));
    events := Extend(s, events, Act(id, Advance(0)));
    events := Extend(s, events, Act(id, Advance(0)));
  }

  /** Without any key, the candidate becomes the pending key. */
  lemma CandidateBecomesPending(s: System, before: seq<Event>, r: System, id: WorkerId, did: Did, candidate: Key,
                                now: int, leaseMs: int)
    returns (events: seq<Event>, t: System)
    requires Run(r, before) == s && Serving(s, id, did, StoreCheck) && did in s.shared.stores
    requires did !in s.shared.pending && did !in s.shared.installed
    ensures Run(r, events) == t && Serving(t, id, did, CurrentCheck) && t.workers[id].key == candidate
    ensures t.shared.pending == s.shared.pending[did := candidate] && t.shared.installed == s.shared.installed
    ensures t.shared.log == s.shared.log + [Pended(did, candidate)]
    ensures t.workers[id].failed == s.workers[id].failed && t.workers[id].page == s.workers[id].page
  {
    hide Run, ScanStep, LeaseStep, PublishStep;
    events := Extend(r, before, Act(id, Advance(0)));
    events := Extend(r, events, Act(id, Advance(0)));
    events := Extend(r, events, Act(id, Advance(0)));
    t := Run(r, events);
    assert Serving(t, id, did, PendingLease) && t.shared == s.shared;
    events, t := LinkCandidate(t, events, r, id, did, candidate, now, leaseMs);
  }

  lemma LinkCandidate(s: System, before: seq<Event>, r: System, id: WorkerId, did: Did, candidate: Key,
                      now: int, leaseMs: int)
    returns (events: seq<Event>, t: System)
    requires Run(r, before) == s && Serving(s, id, did, PendingLease) && did !in s.shared.pending
    ensures Run(r, events) == t && Serving(t, id, did, CurrentCheck) && t.workers[id].key == candidate
    ensures t.shared.pending == s.shared.pending[did := candidate] && t.shared.installed == s.shared.installed
    ensures t.shared.log == s.shared.log + [Pended(did, candidate)]
    ensures t.workers[id].failed == s.workers[id].failed && t.workers[id].page == s.workers[id].page
  {
    hide Run, ScanStep, PublishStep;
    events := Extend(r, before, Act(id, AssertLease(now, leaseMs)));
    events := Extend(r, events, Act(id, Advance(candidate)));
    events := Extend(r, events, Act(id, Advance(0)));
    t := Run(r, events);
  }

  /** A pending key that is not installed yet is published, or refused, and then installed. */
  lemma PendingIsInstalled(s: System, before: seq<Event>, r: System, id: WorkerId, did: Did, accepted: bool,
                           now: int, leaseMs: int)
    returns (events: seq<Event>, t: System)
    requires Run(r, before) == s && Serving(s, id, did, CurrentCheck) && did !in s.shared.installed
    requires did in s.shared.pending && s.workers[id].key == s.shared.pending[did]
    ensures var key := s.shared.pending[did];
            && Run(r, events) == t && Left(s, t, id, 0)
            && t.shared.pending == s.shared.pending && t.shared.installed == s.shared.installed[did := key]
            && t.shared.log == s.shared.log
                               + [if accepted then Published(id, did, key) else Refused(id, did),
                                  Installed(id, did, key)]
  {
    hide Run, Apply;
    events, t := PendingIsPublished(s, before, r, id, did, accepted, now, leaseMs);
    events, t := InstallPending(t, events, r, id, did, now, leaseMs);
  }

  lemma PendingIsPublished(s: System, before: seq<Event>, r: System, id: WorkerId, did: Did, accepted: bool,
                           now: int, leaseMs: int)
    returns (events: seq<Event>, t: System)
    requires Run(r, before) == s && Serving(s, id, did, CurrentCheck) && did !in s.shared.installed
    ensures Run(r, events) == t && Serving(t, id, did, InstallLease) && SameFiles(t.shared, s.shared)
    ensures var key := s.workers[id].key;
            t.shared.log == s.shared.log + [if accepted then Published(id, did, key) else Refused(id, did)]
    ensures t.workers[id].failed == s.workers[id].failed && t.workers[id].page == s.workers[id].page
  {
    hide Run, ScanStep;
    events := Extend(r, before, Act(id, Advance(0)));
    events := Extend(r, events, Act(id, AssertLease(now, leaseMs)));
    t := Run(r, events);
    assert Serving(t, id, did, Publishing) && SameFiles(t.shared, s.shared) && t.shared.log == s.shared.log;
    assert t.workers[id] == s.workers[id].(pc := Publishing);
    events, t := PublishKey(t, events, r, id, did, accepted);
  }

  lemma PublishKey(s: System, before: seq<Event>, r: System, id: WorkerId, did: Did, accepted: bool)
    returns (events: seq<Event>, t: System)
    requires Run(r, before) == s && Serving(s, id, did, Publishing)
    ensures Run(r, events) == t && Serving(t, id, did, InstallLease) && SameFiles(t.shared, s.shared)
    ensures var key := s.workers[id].key;
            t.shared.log == s.shared.log + [if accepted then Published(id, did, key) else Refused(id, did)]
    ensures t.workers[id].failed == s.workers[id].failed && t.workers[id].page == s.workers[id].page
  {
    hide Run, ScanStep, LeaseStep;
    events := Extend(r, before, Act(id, Publish(if accepted then Accepted else Unpublishable)));
    t := Run(r, events);
    if accepted {
      events := Extend(r, events, Act(id, Advance(0)));
      t := Run(r, events);
    }
  }

  lemma InstallPending(s: System, before: seq<Event>, r: System, id: WorkerId, did: Did, now: int, leaseMs: int)
    returns (events: seq<Event>, t: System)
    requires Run(r, before) == s && Serving(s, id, did, InstallLease)
    requires did !in s.shared.installed && did in s.shared.pending
    ensures var key := s.shared.pending[did];
            && Run(r, events) == t && Left(s, t, id, 0)
            && t.shared.pending == s.shared.pending && t.shared.installed == s.shared.installed[did := key]
            && t.shared.log == s.shared.log + [Installed(id, did, key)]
  {
    hide Run, ScanStep, PublishStep;
    events := Extend(r, before, Act(id, AssertLease(now, leaseMs)));
    events := Extend(r, events, Act(id, Advance(0)));
    t := Run(r, events);
  }

  /**
   * An account with a store and no key, served without interruption, ends with one key: the candidate, pending first,
   * then published or refused, then installed. The account counts as served.
   */
  lemma FreshAccountGetsItsKey(s: System, id: WorkerId, did: Did, candidate: Key, accepted: bool,
                               now: int, leaseMs: int)
    returns (events: seq<Event>)
    requires Serving(s, id, did, StoreCheck) && did in s.shared.stores
    requires did !in s.shared.pending && did !in s.shared.installed
    ensures var t := Run(s, events);
            && Left(s, t, id, 0)
            && t.shared.pending == s.shared.pending[did := candidate]
            && t.shared.installed == s.shared.installed[did := candidate]
            && t.shared.log == s.shared.log
                               + [Pended(did, candidate),
                                  if accepted then Published(id, did, candidate) else Refused(id, did),
                                  Installed(id, did, candidate)]
  {
    RunNothing(s);
    hide Run, Apply;
    var t;
    events, t := CandidateBecomesPending(s, [], s, id, did, candidate, now, leaseMs);
    events, t := PendingIsInstalled(t, events, s, id, did, accepted, now, leaseMs);
  }

  /** A pending key of an earlier attempt, or of another worker, is taken up; an installed key is compared with it. */
  lemma PendingKeyIsTakenUp(s: System, id: WorkerId, did: Did, candidate: Key)
    requires Serving(s, id, did, PendingRead) || Serving(s, id, did, PendingReread)
    requires did in s.shared.pending
    ensures var t := Apply(s, Act(id, Advance(candidate)));
            t.shared == s.shared && Serving(t, id, did, CurrentCheck) && t.workers[id].key == s.shared.pending[did]
  {
  }

  /** Another key where the pending one should be is a failure, before anything is published and when installing. */
  lemma ConflictsAreFailures(s: System, id: WorkerId, did: Did, candidate: Key)
    requires Serving(s, id, did, CurrentCheck) || Serving(s, id, did, ConflictCheck)
    requires did in s.shared.installed
    ensures var t := Apply(s, Act(id, Advance(candidate)));
            t.shared == s.shared && Left(s, t, id, if s.shared.installed[did] == s.workers[id].key then 0 else 1)
  {
  }

  /** A key that appeared meanwhile is not overwritten. */
  lemma InstallDoesNotOverwrite(s: System, id: WorkerId, did: Did, candidate: Key)
    requires Serving(s, id, did, InstallLink) && did in s.shared.installed
    ensures var t := Apply(s, Act(id, Advance(candidate))); t.shared == s.shared && Serving(t, id, did, ConflictCheck)
  {
  }

  /** The response to a publication is lost: the key may be out, and the account is tried again. */
  lemma LostResponseIsAFailure(s: System, id: WorkerId, did: Did)
    requires Serving(s, id, did, Publishing)
    ensures var t := Apply(s, Act(id, Publish(ResponseLost)));
            && Left(s, t, id, 1) && SameFiles(t.shared, s.shared)
            && t.shared.log == s.shared.log + [Published(id, did, s.workers[id].key)]
  {
  }

  /** A pending file that has appeared meanwhile is left as it is, and read instead of the candidate. */
  lemma LinkDoesNotOverwrite(s: System, id: WorkerId, did: Did, candidate: Key)
    requires Serving(s, id, did, PendingLink) && did in s.shared.pending
    ensures var t := Apply(s, Act(id, Advance(candidate))); t.shared == s.shared && Serving(t, id, did, PendingReread)
  {
  }

  // ----- a scan -----

  /** A page without a row ends the scan: to be completed without a failure, to be tried again with one. */
  lemma PagesAreTurned(s: System, id: WorkerId, rows: seq<Did>)
    requires AtPc(s, id, Scanning) && s.workers[id].page == [] && !s.workers[id].aborted
    requires IsPage(s.shared.rows, s.workers[id].cursor, rows)
    ensures var w, t := s.workers[id], Apply(s, Act(id, Query(rows)));
            && t.shared == s.shared
            && if rows == [] then AtPc(t, id, if w.failed > 0 then Releasing else Completing)
               else t.workers == s.workers[id := w.(page := rows, cursor := Some(rows[|rows| - 1]))]
  {
  }

  /** The rows of a page are visited in order, and it is remembered which of them have a store. */
  lemma RowsAreVisited(s: System, id: WorkerId)
    requires AtPc(s, id, Scanning) && s.workers[id].page != [] && !s.workers[id].aborted
    ensures var w, t := s.workers[id], Apply(s, Act(id, Pick)); var did := w.page[0];
            && t.shared == s.shared && AtPc(t, id, StoreCheck)
            && t.workers[id].did == did && t.workers[id].page == w.page[1..]
            && t.workers[id].scan.visited == w.scan.visited + [did]
            && var stores := t.workers[id].scan.stores;
               forall d :: d in stores <==> d in w.scan.stores || (d == did && did in s.shared.stores)
  {
  }

  /** An abort is noticed between two accounts, and an error outside an account ends the attempt as well. */
  lemma ScanIsGivenUp(s: System, id: WorkerId, e: Event)
    requires AtPc(s, id, Scanning)
    requires || e == Act(id, ScanError)
             || (e == Act(id, Pick) && s.workers[id].page != [] && s.workers[id].aborted)
             || (e == Act(id, Query([])) && s.workers[id].page == [] && s.workers[id].aborted
                 && IsPage(s.shared.rows, s.workers[id].cursor, []))
    ensures Apply(s, e).shared == s.shared && AtPc(Apply(s, e), id, Releasing)
  {
  }

  /** The row after its owner has given it up; it is no concern of any other worker. */
  function GivenUp(row: Lease, id: WorkerId): Lease {
    if row.owner == Some(id) then Lease(None, 0, row.completed) else row
  }

  /** At the end the row is given up, unless that failed without effect; `run` goes on until it was complete. */
  lemma RowIsGivenUp(s: System, id: WorkerId, landed: bool)
    requires AtPc(s, id, Leaving) || AtPc(s, id, Releasing)
    ensures var t := Apply(s, Act(id, FinishLease));
            && t.shared == s.shared.(lease := GivenUp(s.shared.lease, id))
            && AtPc(t, id, if AtPc(s, id, Leaving) then Finished else Idle)
    ensures var t := Apply(s, Act(id, FinishFails(landed)));
            && t.shared == (if landed then s.shared.(lease := GivenUp(s.shared.lease, id)) else s.shared)
            && AtPc(t, id, Idle)
  {
  }

  /** Completing sets no more than the mark, only for the owner; after an error the row is given up all the same. */
  lemma CompletingMarksTheRow(s: System, id: WorkerId, landed: bool)
    requires AtPc(s, id, Completing)
    ensures var mine, t := s.shared.lease.owner == Some(id), Apply(s, Act(id, FinishLease));
            && SameFiles(t.shared, s.shared) && t.shared.log == s.shared.log && AtPc(t, id, Leaving)
            && t.shared.lease == s.shared.lease.(completed := s.shared.lease.completed || mine)
    ensures var t := Apply(s, Act(id, FinishFails(landed)));
            && SameFiles(t.shared, s.shared) && t.shared.log == s.shared.log && AtPc(t, id, Releasing)
            && t.shared.lease == if landed then Apply(s, Act(id, FinishLease)).shared.lease else s.shared.lease
  {
  }

  /** What happens around the workers: stores, rows and keys come, and rows go. */
  lemma Surroundings(s: System, did: Did, key: Key)
    ensures Apply(s, AddStore(did)) == s.(shared := s.shared.(stores := s.shared.stores + {did}))
    ensures Apply(s, AddRow(did)) == s.(shared := s.shared.(rows := s.shared.rows + {did}))
    ensures Apply(s, RemoveRow(did)).shared == s.shared.(rows := s.shared.rows - {did})
    ensures Apply(s, CreateKey(did, key)).shared ==
            if did in s.shared.installed then s.shared
            else s.shared.(installed := s.shared.installed[did := key])
  {
    hide WorkerStep;
  }

  lemma CrashAndAbort(s: System, id: WorkerId)
    requires id in s.workers
    ensures var t := Apply(s, Act(id, Crash)); t.shared == s.shared && AtPc(t, id, Dead)
    ensures Apply(s, Act(id, Abort)) == s.(workers := s.workers[id := s.workers[id].(aborted := true)])
  {
  }

  /** An error inside an account counts as a failure of the account and of nothing else. */
  lemma ErrorsAreFailures(s: System, id: WorkerId)
    requires id in s.workers && InAccount(s.workers[id].pc)
    ensures var t := Apply(s, Act(id, Fail)); t.shared == s.shared && Left(s, t, id, 1)
  {
  }

  /** An attempt begins unless the row is complete already, which ends `run`; an aborted `run` just ends. */
  lemma AttemptBegins(s: System, id: WorkerId)
    requires AtPc(s, id, Idle)
    ensures !s.workers[id].aborted ==>
              var t := Apply(s, Act(id, CheckComplete));
              t.shared == s.shared && AtPc(t, id, if s.shared.lease.completed then Finished else Acquiring)
    ensures s.workers[id].aborted ==>
              var t := Apply(s, Act(id, LeaveLoop)); t.shared == s.shared && AtPc(t, id, Finished)
  {
  }

  // ----- what a completed scan means -----

  predicate ScanPc(pc: Pc) {
    Active(pc) || pc == Completing
  }

  /** The worker claims the row and begins a scan. */
  predicate Begins(s: System, e: Event, id: WorkerId) {
    e.Act? && e.id == id && e.action.Acquire? && AtPc(s, id, Acquiring) && !Excluded(s.shared.lease, id, e.action.now)
  }

  /** How one step changes what a worker knows of its scan. */
  ghost predicate ScanGoesOn(s: System, t: System, e: Event, id: WorkerId)
    requires id in s.workers && id in t.workers
  {
    var before, after := s.workers[id].scan, t.workers[id].scan;
    && ScanPc(s.workers[id].pc)
    && (forall d :: d in after.throughout <==> d in before.throughout && e != RemoveRow(d))
    && before.stores <= after.stores
    && (forall d :: d in after.visited && d in s.shared.stores ==> d in before.visited || d in after.stores)
  }

  lemma AccountKeepsScan(sh: Shared, id: WorkerId, w: Worker, a: Action)
    requires a.Advance? || a.AssertLease? || a.Publish?
    ensures var (sh', w') := WorkerStep(sh, id, w, a);
            sh'.stores == sh.stores && w'.scan == w.scan && (ScanPc(w'.pc) ==> ScanPc(w.pc))
  {
  }

  lemma LoopKeepsScan(sh: Shared, id: WorkerId, w: Worker, a: Action)
    requires !a.Advance? && !a.AssertLease? && !a.Publish? && !a.Acquire? && !a.Pick?
    ensures var (sh', w') := WorkerStep(sh, id, w, a);
            sh'.stores == sh.stores && w'.scan == w.scan && (ScanPc(w'.pc) ==> ScanPc(w.pc))
  {
  }

  lemma PickMoves(s: System, id: WorkerId)
    requires id in s.workers
    ensures var t := Apply(s, Act(id, Pick));
            t.shared == s.shared && (ScanPc(t.workers[id].pc) ==> ScanGoesOn(s, t, Act(id, Pick), id))
  {
    var w := s.workers[id];
    if w.pc == Scanning && w.page != [] && !w.aborted {
      RowsAreVisited(s, id);
    }
  }

  lemma AcquireMoves(s: System, e: Event)
    requires e.Act? && e.action.Acquire? && e.id in s.workers
    ensures var t := Apply(s, e);
            && t.shared.stores == s.shared.stores
            && if Begins(s, e, e.id) then t.workers[e.id].scan == Scan([], s.shared.rows, {})
               else ScanPc(t.workers[e.id].pc) ==> ScanGoesOn(s, t, e, e.id)
  {
  }

  lemma ScanMoves(s: System, e: Event, id: WorkerId)
    requires id in Apply(s, e).workers && ScanPc(Apply(s, e).workers[id].pc)
    ensures id in s.workers && s.shared.stores <= Apply(s, e).shared.stores
    ensures if Begins(s, e, id) then Apply(s, e).workers[id].scan == Scan([], s.shared.rows, {})
            else ScanGoesOn(s, Apply(s, e), e, id)
  {
    hide WorkerStep, ScanPc;
    if e.Act? && e.id in s.workers {
      if e.action.Pick? {
        PickMoves(s, e.id);
      } else if e.action.Acquire? {
        AcquireMoves(s, e);
      } else if e.action.Advance? || e.action.AssertLease? || e.action.Publish? {
        AccountKeepsScan(s.shared, e.id, s.workers[e.id], e.action);
      } else {
        LoopKeepsScan(s.shared, e.id, s.workers[e.id], e.action);
      }
    }
  }

  /** Of the scan that began at a: the rows that have been there since, and the visited ones that had a store then. */
  ghost predicate ScanOf(s: System, events: seq<Event>, id: WorkerId, a: nat) {
    && a < |events| && Begins(Run(s, events[..a]), events[a], id) && id in Run(s, events).workers
    && var start, scan := Run(s, events[..a]).shared, Run(s, events).workers[id].scan;
       && start.stores <= Run(s, events).shared.stores
       && (forall d :: d in scan.throughout <==> d in start.rows && RemoveRow(d) !in events[a..])
       && (forall d :: d in scan.visited && d in start.stores ==> d in scan.stores)
  }

  lemma {:induction false} ScanBegan(s: System, events: seq<Event>, id: WorkerId) returns (a: nat)
    requires Init(s) && id in Run(s, events).workers && ScanPc(Run(s, events).workers[id].pc)
    ensures ScanOf(s, events, id, a)
  {
    hide Apply, Begins;
    var front, e := events[..|events| - 1], events[|events| - 1];
    ScanMoves(Run(s, front), e, id);
    if Begins(Run(s, front), e, id) {
      a := |front|;
      assert events[a..] == [e];
      BeginIsNoRemoval(Run(s, front), e, id);
    } else {
      a := ScanBegan(s, front, id);
      assert events[..a] == front[..a] && events[a..] == front[a..] + [e];
    }
  }

  lemma BeginIsNoRemoval(s: System, e: Event, id: WorkerId)
    requires Begins(s, e, id)
    ensures e.Act?
  {
  }

  /**
   * Once the row is complete: some worker began a scan at a and completed the row, then its own, at c; and every
   * account that had a store when the scan began, and whose row was there from then to the end of the scan, has a key.
   */
  lemma CompletionMeansKeys(s: System, events: seq<Event>) returns (id: WorkerId, a: nat, c: nat)
    requires Init(s) && Run(s, events).shared.lease.completed
    ensures a < c < |events| && Begins(Run(s, events[..a]), events[a], id)
    ensures Completes(Run(s, events[..c]), events[c]) && events[c].id == id
    ensures var start, end := Run(s, events[..a]).shared, Run(s, events).shared;
            forall d :: d in start.rows && d in start.stores && RemoveRow(d) !in events[a..c] ==> d in end.installed
  {
    hide Run, Apply, Begins;
    CompletedIff(s, events);
    c :| 0 <= c < |events| && Completes(Run(s, events[..c]), events[c]);
    id := events[c].id;
    var front := events[..c];
    a := ScanBegan(s, front, id);
    assert front[..a] == events[..a] && front[a..] == events[a..c];
    InitOk(s);
    RunOk(s, front);
    assert WorkerOk(Run(s, front).shared, id, Run(s, front).workers[id]);
    assert events == front + events[c..];
    RunAppend(s, front, events[c..]);
    RunOk(Run(s, front), events[c..]);
  }
}
