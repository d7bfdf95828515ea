/**
 * The KEM key backfill: any number of workers share one lease row, but the lease
 * cannot fence the publication of a key. What keeps the published keys equal is a
 * pending key file that is created at most once per account and never removed.
 *
 * One `Action` is what a worker does between two awaits. An action that the worker's
 * program counter does not allow leaves everything as it was, so that every sequence
 * of events is a run: stalls, crashes, retries and lost leases are all included.
 */
module KemKeyBackfill {
  import opened Prelude

  // Accounts are only compared with each other; a DID is its rank in the order of the database.
  type Did = int
  type Key = nat
  type WorkerId = nat

  const PAGE_SIZE := 100

  // ----- the lease row -----

  datatype Lease = Lease(owner: Option<WorkerId>, expiresAt: int, completed: bool) {
    predicate CanRenew(w: WorkerId, now: int) {
      !completed && (owner == Some(w) || expiresAt <= now)
    }

    function Renewed(w: WorkerId, now: int, leaseMs: int): Lease {
      if CanRenew(w, now) then this.(owner := Some(w), expiresAt := now + leaseMs) else this
    }

    function Completed(w: WorkerId): Lease {
      if owner == Some(w) then this.(completed := true) else this
    }

    function Released(w: WorkerId): Lease {
      if owner == Some(w) then this.(owner := None, expiresAt := 0) else this
    }
  }

  /** The single row of the lease table, updated in place by conditional updates. */
  class LeaseRow {
    var owner: Option<WorkerId>
    var expiresAt: int
    var completed: bool

    function View(): Lease
      reads this
    {
      Lease(owner, expiresAt, completed)
    }

    constructor ()
      ensures View() == Lease(None, 0, false)
    {
      owner, expiresAt, completed := None, 0, false;
    }

    method RenewLease(w: WorkerId, now: int, leaseMs: int) returns (held: bool)
      modifies this
      ensures View() == old(View()).Renewed(w, now, leaseMs)
      ensures held <==> old(!completed && (owner == Some(w) || expiresAt <= now))
      ensures held ==> owner == Some(w) && expiresAt == now + leaseMs && !completed
      ensures !held ==> owner == old(owner) && expiresAt == old(expiresAt) && completed == old(completed)
    {
      held := !completed && (owner == Some(w) || expiresAt <= now);
      if held {
        owner, expiresAt := Some(w), now + leaseMs;
      }
    }

    method Complete(w: WorkerId)
      modifies this
      ensures View() == old(View()).Completed(w)
      ensures owner == old(owner) && expiresAt == old(expiresAt)
      ensures completed <==> old(completed) || owner == Some(w)
    {
      if owner == Some(w) {
        completed := true;
      }
    }

    method Release(w: WorkerId)
      modifies this
      ensures View() == old(View()).Released(w)
      ensures completed == old(completed)
      ensures if old(owner) == Some(w) then owner == None && expiresAt == 0
              else owner == old(owner) && expiresAt == old(expiresAt)
    {
      if owner == Some(w) {
        owner, expiresAt := None, 0;
      }
    }
  }

  // ----- shared state and workers -----

  /** What has happened to key files and DID documents, in order. */
  datatype Record =
    | Pended(did: Did, key: Key)
    | Published(worker: WorkerId, did: Did, key: Key)
    | Refused(worker: WorkerId, did: Did)
    | Installed(worker: WorkerId, did: Did, key: Key)

  /** A scan: the rows it visited, the rows that were there throughout, the rows with a store when they were visited. */
  datatype Scan = Scan(visited: seq<Did>, throughout: set<Did>, stores: set<Did>)

  datatype Shared = Shared(
    lease: Lease,
    rows: set<Did>,            // the actor table
    stores: set<Did>,          // accounts whose actor store exists
    pending: map<Did, Key>,    // pending key files
    installed: map<Did, Key>,  // KEM key files
    log: seq<Record>,
    completedBy: Option<Scan>  // the scan whose completion took effect
  )

  datatype Pc =
    | Idle | Acquiring | Scanning | Completing | Leaving | Releasing | Finished | Dead
    | StoreCheck | PendingRead | InstalledCheck | PendingLease | PendingLink | PendingReread
    | CurrentCheck | PublishLease | Publishing | Sequencing | InstallLease | InstallLink | ConflictCheck

  datatype Worker = Worker(
    pc: Pc,
    aborted: bool,
    failed: nat,
    cursor: Option<Did>,
    page: seq<Did>,
    did: Did,
    key: Key,
    scan: Scan
  )

  predicate InAccount(pc: Pc) {
    pc in {StoreCheck, PendingRead, InstalledCheck, PendingLease, PendingLink, PendingReread,
           CurrentCheck, PublishLease, Publishing, Sequencing, InstallLease, InstallLink, ConflictCheck}
  }

  // The key of the current account has been read from its pending file.
  predicate KeyLoaded(pc: Pc) {
    pc in {CurrentCheck, PublishLease, Publishing, Sequencing, InstallLease, InstallLink, ConflictCheck}
  }

  // The key was published, or this PDS cannot publish it.
  predicate PublishSettled(pc: Pc) {
    pc in {Sequencing, InstallLease, InstallLink, ConflictCheck}
  }

  datatype PublishOutcome = Accepted | Unpublishable | ResponseLost

  datatype Action =
    | CheckComplete
    | Acquire(now: int, leaseMs: int)
    | Query(rows: seq<Did>)
    | Pick
    | Advance(candidate: Key)                  // the next step of the account that needs no further choice
    | AssertLease(now: int, leaseMs: int)
    | Publish(outcome: PublishOutcome)
    | Fail                                     // any other error inside the account
    | ScanError                                // an error outside an account
    | FinishLease                              // complete or release
    | FinishFails(landed: bool)                // the same, and an error after or without its effect
    | Abort
    | LeaveLoop                                // the aborted signal ends the loop of run()
    | Crash

  /** The first `PAGE_SIZE` rows after the cursor, in order. */
  ghost predicate IsPage(rows: set<Did>, cursor: Option<Did>, page: seq<Did>) {
    && |page| <= PAGE_SIZE
    && StrictlyIncreasing(page)
    && (forall d :: d in page ==> d in rows && After(cursor, d))
    && (forall d :: d in rows && After(cursor, d) ==>
          d in page || (|page| == PAGE_SIZE && page[PAGE_SIZE - 1] < d))
  }

  predicate After(cursor: Option<Did>, d: Did) {
    cursor.None? || cursor.value < d
  }

  // ----- one step of one worker -----

  function AccountDone(w: Worker): Worker {
    w.(pc := Scanning)
  }

  function AccountFailed(w: Worker): Worker {
    w.(pc := Scanning, failed := w.failed + 1)
  }

  function Logged(sh: Shared, r: Record): Shared {
    sh.(log := sh.log + [r])
  }

  /** The unconditional steps of `backfillAccount`. */
  function AccountStep(sh: Shared, id: WorkerId, w: Worker, candidate: Key): (Shared, Worker) {
    var did := w.did;
    match w.pc
    case StoreCheck =>
      if did in sh.stores then (sh, w.(pc := PendingRead)) else (sh, AccountDone(w))
    case PendingRead =>
      if did in sh.pending then (sh, w.(pc := CurrentCheck, key := sh.pending[did]))
      else (sh, w.(pc := InstalledCheck))
    case InstalledCheck =>
      if did in sh.installed then (sh, AccountDone(w)) else (sh, w.(pc := PendingLease))
    case PendingLink =>
      // link creates the file only if it is absent; a file that exists is not an error
      if did in sh.pending then (sh, w.(pc := PendingReread))
      else (Logged(sh.(pending := sh.pending[did := candidate]), Pended(did, candidate)), w.(pc := PendingReread))
    case PendingReread =>
      if did in sh.pending then (sh, w.(pc := CurrentCheck, key := sh.pending[did]))
      else (sh, AccountFailed(w))
    case CurrentCheck =>
      if did !in sh.installed then (sh, w.(pc := PublishLease))
      else if sh.installed[did] == w.key then (sh, AccountDone(w))
      else (sh, AccountFailed(w))
    case Sequencing => (sh, w.(pc := InstallLease))
    case InstallLink =>
      if did in sh.installed then (sh, w.(pc := ConflictCheck))
      else if did !in sh.pending then (sh, AccountFailed(w))
      else (Logged(sh.(installed := sh.installed[did := sh.pending[did]]), Installed(id, did, sh.pending[did])),
            AccountDone(w))
    case ConflictCheck =>
      if did in sh.installed && sh.installed[did] == w.key then (sh, AccountDone(w)) else (sh, AccountFailed(w))
    case _ => (sh, w)
  }

  function LeaseStep(sh: Shared, id: WorkerId, w: Worker, now: int, leaseMs: int): (Shared, Worker) {
    if w.pc !in {PendingLease, PublishLease, InstallLease} then (sh, w)
    else if !sh.lease.CanRenew(id, now) then (sh, w.(pc := Releasing))  // LeaseLostError ends the attempt
    else
      (sh.(lease := sh.lease.Renewed(id, now, leaseMs)),
       w.(pc := if w.pc == PendingLease then PendingLink
                else if w.pc == PublishLease then Publishing
                else InstallLink))
  }

  function PublishStep(sh: Shared, id: WorkerId, w: Worker, outcome: PublishOutcome): (Shared, Worker) {
    if w.pc != Publishing then (sh, w)
    else match outcome
      case Accepted => (Logged(sh, Published(id, w.did, w.key)), w.(pc := Sequencing))
      case Unpublishable => (Logged(sh, Refused(id, w.did)), w.(pc := InstallLease))
      case ResponseLost => (Logged(sh, Published(id, w.did, w.key)), AccountFailed(w))
  }

  /** The next row of the page is visited. */
  function Visiting(sh: Shared, w: Worker): Worker
    requires w.page != []
  {
    var did := w.page[0];
    w.(pc := StoreCheck, did := did, page := w.page[1..],
       scan := w.scan.(visited := w.scan.visited + [did],
                       stores := if did in sh.stores then w.scan.stores + {did} else w.scan.stores))
  }

  /** The update of `complete`, which matches the row only for its owner. */
  function CompleteRow(sh: Shared, id: WorkerId, scan: Scan): Shared {
    if sh.lease.owner != Some(id) then sh
    else sh.(lease := sh.lease.Completed(id), completedBy := if sh.lease.completed then sh.completedBy else Some(scan))
  }

  /** The steps of `run`, `attempt` and `backfill` around the accounts. */
  ghost function ScanStep(sh: Shared, id: WorkerId, w: Worker, a: Action): (Shared, Worker) {
    match a
    case CheckComplete =>
      if w.pc != Idle || w.aborted then (sh, w)
      else (sh, w.(pc := if sh.lease.completed then Finished else Acquiring))
    case Acquire(now, leaseMs) =>
      if w.pc != Acquiring then (sh, w)
      else if !sh.lease.CanRenew(id, now) then (sh, w.(pc := Idle))
      else
        (sh.(lease := sh.lease.Renewed(id, now, leaseMs)),
         w.(pc := Scanning, failed := 0, cursor := None, page := [], scan := Scan([], sh.rows, {})))
    case Query(rows) =>
      if w.pc != Scanning || w.page != [] || !IsPage(sh.rows, w.cursor, rows) then (sh, w)
      else if w.aborted || rows == [] then
        (sh, w.(pc := if w.failed > 0 || w.aborted then Releasing else Completing))
      else (sh, w.(page := rows, cursor := Some(rows[|rows| - 1])))
    case Pick =>
      if w.pc != Scanning || w.page == [] then (sh, w)
      else if w.aborted then (sh, w.(pc := Releasing))
      else (sh, Visiting(sh, w))
    case FinishLease =>
      if w.pc == Completing then (CompleteRow(sh, id, w.scan), w.(pc := Leaving))
      else if w.pc == Leaving then (sh.(lease := sh.lease.Released(id)), w.(pc := Finished))  // run() resolves
      else if w.pc == Releasing then (sh.(lease := sh.lease.Released(id)), w.(pc := Idle))
      else (sh, w)
    case FinishFails(landed) =>
      // an error of complete() still releases the lease; either error makes run() try again
      if w.pc == Completing then (if landed then CompleteRow(sh, id, w.scan) else sh, w.(pc := Releasing))
      else if w.pc == Leaving || w.pc == Releasing then
        (if landed then sh.(lease := sh.lease.Released(id)) else sh, w.(pc := Idle))
      else (sh, w)
    case LeaveLoop =>
      if w.pc == Idle && w.aborted then (sh, w.(pc := Finished)) else (sh, w)  // run() resolves
    case _ => (sh, w)
  }

  ghost function WorkerStep(sh: Shared, id: WorkerId, w: Worker, a: Action): (Shared, Worker) {
    match a
    case Advance(candidate) => AccountStep(sh, id, w, candidate)
    case AssertLease(now, leaseMs) => LeaseStep(sh, id, w, now, leaseMs)
    case Publish(outcome) => PublishStep(sh, id, w, outcome)
    case Fail => if InAccount(w.pc) then (sh, AccountFailed(w)) else (sh, w)
    case ScanError => if w.pc == Scanning then (sh, w.(pc := Releasing)) else (sh, w)
    case Abort => (sh, w.(aborted := true))
    case Crash => (sh, w.(pc := Dead))
    case _ => ScanStep(sh, id, w, a)
  }

  // ----- the whole system -----

  datatype System = System(shared: Shared, workers: map<WorkerId, Worker>)

  datatype Event =
    | Act(id: WorkerId, action: Action)
    | AddStore(did: Did)
    | AddRow(did: Did)
    | RemoveRow(did: Did)
    | CreateKey(did: Did, key: Key)   // a new account gets its KEM key

  function RowGone(w: Worker, did: Did): Worker {
    w.(scan := w.scan.(throughout := w.scan.throughout - {did}))
  }

  ghost function Apply(s: System, e: Event): System {
    var sh := s.shared;
    match e
    case Act(id, a) =>
      if id !in s.workers then s
      else
        var (sh', w') := WorkerStep(sh, id, s.workers[id], a);
        System(sh', s.workers[id := w'])
    case AddStore(did) => s.(shared := sh.(stores := sh.stores + {did}))
    case AddRow(did) => s.(shared := sh.(rows := sh.rows + {did}))
    case RemoveRow(did) =>
      System(sh.(rows := sh.rows - {did}), map id | id in s.workers :: RowGone(s.workers[id], did))
    case CreateKey(did, key) =>
      if did in sh.installed then s
      else s.(shared := sh.(installed := sh.installed[did := key]))
  }

  ghost function Run(s: System, events: seq<Event>): System {
    if events == [] then s else Apply(Run(s, events[..|events| - 1]), events[|events| - 1])
  }

  /** Workers wait to start; no pending key exists; the lease is free or held by a process that is gone. */
  ghost predicate Init(s: System) {
    && s.shared.pending == map[] && s.shared.log == [] && !s.shared.lease.completed
    && s.shared.completedBy == None
    && forall id :: id in s.workers ==> s.workers[id].pc == Idle && s.workers[id].scan == Scan([], {}, {})
                                        && s.workers[id].page == []
  }

  // ----- invariants -----

  /** Files are only added, keys never change, the log only grows, stores stay, completion stays. */
  ghost predicate Grows(a: Shared, b: Shared) {
    && (forall d :: d in a.pending ==> d in b.pending && b.pending[d] == a.pending[d])
    && (forall d :: d in a.installed ==> d in b.installed && b.installed[d] == a.installed[d])
    && a.stores <= b.stores
    && a.log <= b.log
    && (a.lease.completed ==> b.lease.completed && b.completedBy == a.completedBy)
  }

  ghost predicate Settled(log: seq<Record>, id: WorkerId, did: Did, key: Key) {
    Published(id, did, key) in log || Refused(id, did) in log
  }

  /** Every record is justified by the records before it and agrees with the pending file. */
  ghost predicate RecordOk(sh: Shared, i: nat)
    requires i < |sh.log|
  {
    match sh.log[i]
    case Pended(did, key) => did in sh.pending && sh.pending[did] == key
    case Published(_, did, key) =>
      did in sh.pending && sh.pending[did] == key && Pended(did, key) in sh.log[..i]
    case Refused(_, _) => true
    case Installed(id, did, key) =>
      did in sh.pending && sh.pending[did] == key && did in sh.installed && sh.installed[did] == key
      && Settled(sh.log[..i], id, did, key)
  }

  ghost predicate SharedOk(sh: Shared) {
    && (forall i :: 0 <= i < |sh.log| ==> RecordOk(sh, i))
    && (forall d :: d in sh.pending ==> Pended(d, sh.pending[d]) in sh.log)
    && (sh.lease.completed ==> sh.completedBy.Some? && ScanComplete(sh, sh.completedBy.value))
  }

  ghost predicate ScanComplete(sh: Shared, scan: Scan) {
    && StrictlyIncreasing(scan.visited)
    && (forall d :: d in scan.throughout ==> d in scan.visited)
    && (forall d :: d in scan.visited && d in scan.stores ==> d in sh.installed)
  }

  ghost predicate KeyOk(sh: Shared, id: WorkerId, w: Worker) {
    && (KeyLoaded(w.pc) ==> w.did in sh.pending && sh.pending[w.did] == w.key)
    && (PublishSettled(w.pc) ==> Settled(sh.log, id, w.did, w.key))
  }

  predicate Active(pc: Pc) {
    pc == Scanning || InAccount(pc)
  }

  /** The visited rows and the rest of the page are the rows up to the cursor, in order and without gaps. */
  ghost predicate OrderOk(w: Worker) {
    var seen := w.scan.visited + w.page;
    && StrictlyIncreasing(seen)
    && (forall d :: d in seen ==> !After(w.cursor, d))
    && (forall d :: d in w.scan.throughout && !After(w.cursor, d) ==> d in seen)
  }

  /** Without failures, every account already served has a key. */
  ghost predicate ServedOk(sh: Shared, w: Worker) {
    w.failed == 0 ==>
      forall d :: d in w.scan.visited && d in w.scan.stores ==> d in sh.installed || (InAccount(w.pc) && d == w.did)
  }

  ghost predicate ScanOk(sh: Shared, w: Worker) {
    && w.scan.stores <= sh.stores
    && w.scan.throughout <= sh.rows
    && (Active(w.pc) ==> OrderOk(w) && ServedOk(sh, w))
    && (InAccount(w.pc) && w.pc != StoreCheck ==> w.did in sh.stores)
    && (w.pc == Completing ==> ScanComplete(sh, w.scan))
  }

  ghost predicate WorkerOk(sh: Shared, id: WorkerId, w: Worker) {
    KeyOk(sh, id, w) && ScanOk(sh, w)
  }

  ghost predicate Inv(s: System) {
    SharedOk(s.shared) && forall id :: id in s.workers ==> WorkerOk(s.shared, id, s.workers[id])
  }

  // ----- every step keeps the invariants -----

  lemma SettledGrows(log: seq<Record>, log': seq<Record>, id: WorkerId, did: Did, key: Key)
    requires log <= log' && Settled(log, id, did, key)
    ensures Settled(log', id, did, key)
  {
    if Published(id, did, key) in log {
      var i :| 0 <= i < |log| && log[i] == Published(id, did, key);
      assert log'[i] == Published(id, did, key);
    } else {
      var i :| 0 <= i < |log| && log[i] == Refused(id, did);
      assert log'[i] == Refused(id, did);
    }
  }

  lemma SharedFrame(a: Shared, b: Shared)
    requires SharedOk(a) && Grows(a, b) && b.log == a.log && b.pending == a.pending
    requires b.lease.completed == a.lease.completed
    ensures SharedOk(b)
  {
    forall i | 0 <= i < |b.log| ensures RecordOk(b, i) {
      assert RecordOk(a, i);
    }
  }

  lemma SharedLogged(a: Shared, b: Shared, r: Record)
    requires SharedOk(a) && Grows(a, b) && b.log == a.log + [r]
    requires b.lease.completed == a.lease.completed
    requires RecordOk(b, |a.log|)
    requires forall d :: d in b.pending && d !in a.pending ==> r == Pended(d, b.pending[d])
    ensures SharedOk(b)
  {
    forall i | 0 <= i < |b.log| ensures RecordOk(b, i) {
      if i < |a.log| {
        assert RecordOk(a, i);
        assert b.log[..i] == a.log[..i];
      }
    }
    forall d | d in b.pending ensures Pended(d, b.pending[d]) in b.log {
      if d in a.pending {
        assert Pended(d, a.pending[d]) in a.log;
      } else {
        assert b.log[|a.log|] == r;
      }
    }
  }

  /** What other workers do never disturbs a worker's own invariant. */
  lemma WorkerFrame(a: Shared, b: Shared, id: WorkerId, w: Worker)
    requires WorkerOk(a, id, w) && Grows(a, b) && a.rows <= b.rows
    ensures WorkerOk(b, id, w)
  {
    assert Active(w.pc) ==> ServedOk(b, w);
    if PublishSettled(w.pc) {
      SettledGrows(a.log, b.log, id, w.did, w.key);
    }
  }

  lemma AccountStepShared(sh: Shared, id: WorkerId, w: Worker, candidate: Key)
    requires SharedOk(sh) && KeyOk(sh, id, w)
    ensures var (sh', w') := AccountStep(sh, id, w, candidate);
            SharedOk(sh') && KeyOk(sh', id, w') && Grows(sh, sh') && sh'.rows == sh.rows && sh'.stores == sh.stores
  {
    var (sh', w') := AccountStep(sh, id, w, candidate);
    if w.pc == PendingLink && w.did !in sh.pending {
      SharedLogged(sh, sh', Pended(w.did, candidate));
    } else if w.pc == InstallLink && w.did !in sh.installed && w.did in sh.pending {
      assert sh'.log[..|sh.log|] == sh.log;
      SharedLogged(sh, sh', Installed(id, w.did, sh.pending[w.did]));
    } else {
      assert sh' == sh;
    }
  }

  /** An account that is left without a failure has a key, or had no store when its row was visited. */
  lemma AccountStepScan(sh: Shared, id: WorkerId, w: Worker, candidate: Key)
    requires ScanOk(sh, w) && InAccount(w.pc)
    ensures var (sh', w') := AccountStep(sh, id, w, candidate); Grows(sh, sh') ==> ScanOk(sh', w')
  {
    var (sh', w') := AccountStep(sh, id, w, candidate);
    assert w'.scan == w.scan && w'.page == w.page && w'.cursor == w.cursor && w'.did == w.did;
    assert OrderOk(w');
    if w'.failed == 0 && w'.pc == Scanning && Grows(sh, sh') {
      assert w.did in w.scan.stores ==> w.did in sh'.installed;
    }
  }

  lemma AccountStepOk(sh: Shared, id: WorkerId, w: Worker, candidate: Key)
    requires SharedOk(sh) && WorkerOk(sh, id, w)
    ensures var (sh', w') := AccountStep(sh, id, w, candidate);
            SharedOk(sh') && WorkerOk(sh', id, w') && Grows(sh, sh') && sh'.rows == sh.rows
  {
    AccountStepShared(sh, id, w, candidate);
    if InAccount(w.pc) {
      AccountStepScan(sh, id, w, candidate);
    }
  }

  lemma LeaseStepOk(sh: Shared, id: WorkerId, w: Worker, now: int, leaseMs: int)
    requires SharedOk(sh) && WorkerOk(sh, id, w)
    ensures var (sh', w') := LeaseStep(sh, id, w, now, leaseMs);
            SharedOk(sh') && WorkerOk(sh', id, w') && Grows(sh, sh') && sh'.rows == sh.rows
  {
    var (sh', w') := LeaseStep(sh, id, w, now, leaseMs);
    SharedFrame(sh, sh');
  }

  lemma PublishStepOk(sh: Shared, id: WorkerId, w: Worker, outcome: PublishOutcome)
    requires SharedOk(sh) && WorkerOk(sh, id, w)
    ensures var (sh', w') := PublishStep(sh, id, w, outcome);
            SharedOk(sh') && WorkerOk(sh', id, w') && Grows(sh, sh') && sh'.rows == sh.rows
  {
    var (sh', w') := PublishStep(sh, id, w, outcome);
    if w.pc == Publishing {
      var r := sh'.log[|sh.log|];
      assert sh'.log[..|sh.log|] == sh.log;
      assert r in sh'.log;
      SharedLogged(sh, sh', r);
    }
  }

  /** Fetching the next page keeps the scan in order and without gaps; an empty page ends a complete scan. */
  lemma QueryOk(sh: Shared, w: Worker, rows: seq<Did>)
    requires ScanOk(sh, w) && w.pc == Scanning && w.page == [] && IsPage(sh.rows, w.cursor, rows)
    ensures rows != [] ==> OrderOk(w.(page := rows, cursor := Some(rows[|rows| - 1])))
    ensures rows == [] && w.failed == 0 ==> ScanComplete(sh, w.scan)
  {
    var v := w.scan.visited;
    assert v + w.page == v;
    if rows != [] {
      var last := rows[|rows| - 1];
      forall d | d in v + rows ensures d <= last {
        if d in v {
          assert !After(w.cursor, d) && After(w.cursor, last);
        }
      }
      forall d | d in w.scan.throughout && d <= last ensures d in v + rows {
        if After(w.cursor, d) {
          assert d in rows;
        } else {
          assert d in v;
        }
      }
      forall i, j | 0 <= i < j < |v + rows| ensures (v + rows)[i] < (v + rows)[j] {
        if i < |v| <= j {
          assert v[i] in v && !After(w.cursor, v[i]);
          assert rows[j - |v|] in rows;
        }
      }
    }
  }

  lemma PickOk(sh: Shared, w: Worker)
    requires ScanOk(sh, w) && w.pc == Scanning && w.page != []
    ensures ScanOk(sh, Visiting(sh, w))
  {
    var w' := Visiting(sh, w);
    assert w'.scan.visited + w'.page == w.scan.visited + w.page;
  }

  lemma CompleteRowOk(sh: Shared, id: WorkerId, scan: Scan)
    requires SharedOk(sh) && ScanComplete(sh, scan)
    ensures var sh' := CompleteRow(sh, id, scan);
            && SharedOk(sh') && Grows(sh, sh') && sh'.rows == sh.rows
            && sh'.stores == sh.stores && sh'.installed == sh.installed
            && sh'.pending == sh.pending && sh'.log == sh.log
  {
    var sh' := CompleteRow(sh, id, scan);
    forall i | 0 <= i < |sh'.log| ensures RecordOk(sh', i) {
      assert RecordOk(sh, i);
    }
  }

  lemma FinishOk(sh: Shared, id: WorkerId, w: Worker, a: Action)
    requires SharedOk(sh) && WorkerOk(sh, id, w) && (a.FinishLease? || a.FinishFails?)
    ensures var (sh', w') := ScanStep(sh, id, w, a);
            SharedOk(sh') && WorkerOk(sh', id, w') && Grows(sh, sh') && sh'.rows == sh.rows
  {
    hide CompleteRow, OrderOk, ServedOk, RecordOk;
    if w.pc == Completing {
      CompleteRowOk(sh, id, w.scan);
    } else {
      ReleaseOk(sh, id, w, a);
    }
  }

  lemma ReleaseOk(sh: Shared, id: WorkerId, w: Worker, a: Action)
    requires SharedOk(sh) && WorkerOk(sh, id, w) && (a.FinishLease? || a.FinishFails?) && w.pc != Completing
    ensures var (sh', w') := ScanStep(sh, id, w, a);
            SharedOk(sh') && WorkerOk(sh', id, w') && Grows(sh, sh') && sh'.rows == sh.rows
  {
    hide OrderOk, ServedOk, SharedOk, CompleteRow;
    SharedFrame(sh, ScanStep(sh, id, w, a).0);
  }

  lemma QueryStepOk(sh: Shared, id: WorkerId, w: Worker, rows: seq<Did>)
    requires SharedOk(sh) && WorkerOk(sh, id, w)
    ensures var (sh', w') := ScanStep(sh, id, w, Query(rows)); sh' == sh && WorkerOk(sh, id, w')
  {
    if w.pc == Scanning && w.page == [] && IsPage(sh.rows, w.cursor, rows) {
      QueryOk(sh, w, rows);
    }
  }

  lemma PickStepOk(sh: Shared, id: WorkerId, w: Worker)
    requires SharedOk(sh) && WorkerOk(sh, id, w)
    ensures var (sh', w') := ScanStep(sh, id, w, Pick); sh' == sh && WorkerOk(sh, id, w')
  {
    if w.pc == Scanning && w.page != [] && !w.aborted {
      PickOk(sh, w);
    }
  }

  lemma AcquireStepOk(sh: Shared, id: WorkerId, w: Worker, now: int, leaseMs: int)
    requires SharedOk(sh) && WorkerOk(sh, id, w)
    ensures var (sh', w') := ScanStep(sh, id, w, Acquire(now, leaseMs));
            SharedOk(sh') && WorkerOk(sh', id, w') && Grows(sh, sh') && sh'.rows == sh.rows
  {
    SharedFrame(sh, ScanStep(sh, id, w, Acquire(now, leaseMs)).0);
  }

  lemma ScanStepOk(sh: Shared, id: WorkerId, w: Worker, a: Action)
    requires SharedOk(sh) && WorkerOk(sh, id, w)
    ensures var (sh', w') := ScanStep(sh, id, w, a);
            SharedOk(sh') && WorkerOk(sh', id, w') && Grows(sh, sh') && sh'.rows == sh.rows
  {
    if a.Query? {
      QueryStepOk(sh, id, w, a.rows);
    } else if a.Pick? {
      PickStepOk(sh, id, w);
    } else if a.FinishLease? || a.FinishFails? {
      FinishOk(sh, id, w, a);
    } else if a.Acquire? {
      AcquireStepOk(sh, id, w, a.now, a.leaseMs);
    }
  }

  lemma WorkerStepOk(sh: Shared, id: WorkerId, w: Worker, a: Action)
    requires SharedOk(sh) && WorkerOk(sh, id, w)
    ensures var (sh', w') := WorkerStep(sh, id, w, a);
            SharedOk(sh') && WorkerOk(sh', id, w') && Grows(sh, sh') && sh'.rows == sh.rows
  {
    hide AccountStep, LeaseStep, PublishStep, ScanStep, SharedOk;
    match a
    case Advance(candidate) => AccountStepOk(sh, id, w, candidate);
    case AssertLease(now, leaseMs) => LeaseStepOk(sh, id, w, now, leaseMs);
    case Publish(outcome) => PublishStepOk(sh, id, w, outcome);
    case Fail =>
    case ScanError =>
    case Abort =>
    case Crash =>
    case _ => ScanStepOk(sh, id, w, a);
  }

  lemma ApplyOk(s: System, e: Event)
    requires Inv(s)
    ensures Inv(Apply(s, e)) && Grows(s.shared, Apply(s, e).shared)
  {
    var s' := Apply(s, e);
    match e
    case Act(id, a) =>
      if id in s.workers {
        WorkerStepOk(s.shared, id, s.workers[id], a);
        forall o | o in s.workers && o != id ensures WorkerOk(s'.shared, o, s'.workers[o]) {
          WorkerFrame(s.shared, s'.shared, o, s.workers[o]);
        }
      }
    case RemoveRow(did) =>
      SharedFrame(s.shared, s'.shared);
      forall o | o in s'.workers ensures WorkerOk(s'.shared, o, s'.workers[o]) {
        assert WorkerOk(s.shared, o, s.workers[o]);
      }
    case _ =>
      SharedFrame(s.shared, s'.shared);
      forall o | o in s'.workers ensures WorkerOk(s'.shared, o, s'.workers[o]) {
        WorkerFrame(s.shared, s'.shared, o, s.workers[o]);
      }
  }

  lemma {:induction false} RunOk(s: System, events: seq<Event>)
    requires Inv(s)
    ensures Inv(Run(s, events)) && Grows(s.shared, Run(s, events).shared)
  {
    if events != [] {
      var front := events[..|events| - 1];
      RunOk(s, front);
      ApplyOk(Run(s, front), events[|events| - 1]);
    }
  }

  lemma InitOk(s: System)
    requires Init(s)
    ensures Inv(s)
  {
    forall id | id in s.workers ensures WorkerOk(s.shared, id, s.workers[id]) {
      assert s.workers[id].pc == Idle;
    }
  }

  // ----- main results -----

  /** The key that a record publishes or installs for an account, if any. */
  function KeyOf(r: Record, did: Did): Option<Key> {
    match r
    case Published(_, d, k) => if d == did then Some(k) else None
    case Installed(_, d, k) => if d == did then Some(k) else None
    case Pended(d, k) => if d == did then Some(k) else None
    case Refused(_, _) => None
  }

  /** Whatever the interleaving, an account only ever gets one key from the backfill: that of its pending file. */
  lemma KeyAgreement(s: System, events: seq<Event>, did: Did, i: nat, j: nat)
    requires Init(s)
    requires var log := Run(s, events).shared.log;
             i < |log| && j < |log| && KeyOf(log[i], did).Some? && KeyOf(log[j], did).Some?
    ensures var sh := Run(s, events).shared;
            && KeyOf(sh.log[i], did) == KeyOf(sh.log[j], did)
            && did in sh.pending && KeyOf(sh.log[i], did) == Some(sh.pending[did])
  {
    InitOk(s);
    RunOk(s, events);
    assert RecordOk(Run(s, events).shared, i) && RecordOk(Run(s, events).shared, j);
  }

  /** A key is pending before it is published; a worker publishes it, or is refused, before that worker installs it. */
  lemma PendingThenPublishThenInstall(s: System, events: seq<Event>, i: nat)
    requires Init(s) && i < |Run(s, events).shared.log|
    ensures var log := Run(s, events).shared.log;
            && (log[i].Published? ==> Pended(log[i].did, log[i].key) in log[..i])
            && (log[i].Installed? ==>
                  && log[i].did in Run(s, events).shared.installed
                  && Run(s, events).shared.installed[log[i].did] == log[i].key
                  && Settled(log[..i], log[i].worker, log[i].did, log[i].key))
  {
    InitOk(s);
    RunOk(s, events);
    assert RecordOk(Run(s, events).shared, i);
  }

  /** Once the row is complete, the completing scan visited each lasting row once and left a key in each store. */
  lemma CompletionCoversEveryAccount(s: System, events: seq<Event>, did: Did)
    requires Init(s) && Run(s, events).shared.lease.completed
    ensures Run(s, events).shared.completedBy.Some?
    ensures var sh := Run(s, events).shared; var scan := sh.completedBy.value;
            did in scan.throughout ==> Count(scan.visited, did) == 1 && (did in scan.stores ==> did in sh.installed)
  {
    InitOk(s);
    RunOk(s, events);
    var scan := Run(s, events).shared.completedBy.value;
    if did in scan.throughout {
      CountOnce(scan.visited, did);
    }
  }

  lemma {:induction false} RunAppend(s: System, first: seq<Event>, second: seq<Event>)
    ensures Run(s, first + second) == Run(Run(s, first), second)
  {
    if second == [] {
      assert first + second == first;
    } else {
      var n := |first + second|;
      assert (first + second)[..n - 1] == first + second[..|second| - 1];
      RunAppend(s, first, second[..|second| - 1]);
    }
  }

  /** After completion no worker ever holds the lease again: both the first claim and every later assertion fail. */
  lemma NoLeaseAfterCompletion(s: System, first: seq<Event>, second: seq<Event>, id: WorkerId, w: Worker,
                               now: int, leaseMs: int)
    requires Init(s) && Run(s, first).shared.lease.completed
    ensures var sh := Run(s, first + second).shared;
            && sh.lease.completed
            && sh.completedBy == Run(s, first).shared.completedBy
            && (w.pc == Acquiring ==> WorkerStep(sh, id, w, Acquire(now, leaseMs)) == (sh, w.(pc := Idle)))
    ensures var sh := Run(s, first + second).shared;
            w.pc in {PendingLease, PublishLease, InstallLease} ==>
              WorkerStep(sh, id, w, AssertLease(now, leaseMs)) == (sh, w.(pc := Releasing))
  {
    InitOk(s);
    RunOk(s, first);
    RunAppend(s, first, second);
    RunOk(Run(s, first), second);
  }

  lemma RunSnoc(s: System, events: seq<Event>, e: Event)
    ensures Run(s, events + [e]) == Apply(Run(s, events), e)
  {
    assert (events + [e])[..|events|] == events;
  }

  /** `complete` leaves a complete lease row exactly if the worker still owned the row or it was complete. */
  lemma CompleteTakesEffectIffOwner(sh: Shared, id: WorkerId, w: Worker)
    requires w.pc == Completing
    ensures var (sh', w') := WorkerStep(sh, id, w, FinishLease);
            w'.pc == Leaving && (sh'.lease.completed <==> sh.lease.completed || sh.lease.owner == Some(id))
  {
  }

  /** A worker reaches `complete`, and the update takes effect, while the row is still its own. */
  ghost predicate Completes(s: System, e: Event) {
    && e.Act? && e.action in {FinishLease, FinishFails(true)} && e.id in s.workers
    && s.workers[e.id].pc == Completing && s.shared.lease.owner == Some(e.id)
  }

  ghost predicate SomeoneCompletes(s: System, events: seq<Event>) {
    exists i :: 0 <= i < |events| && Completes(Run(s, events[..i]), events[i])
  }

  lemma CompletedStep(s: System, e: Event)
    ensures Apply(s, e).shared.lease.completed <==> s.shared.lease.completed || Completes(s, e)
  {
    if e.Act? && e.action == FinishLease && e.id in s.workers && s.workers[e.id].pc == Completing {
      CompleteTakesEffectIffOwner(s.shared, e.id, s.workers[e.id]);
    }
  }

  lemma SomeoneSnoc(s: System, front: seq<Event>, e: Event)
    ensures SomeoneCompletes(s, front + [e]) <==> SomeoneCompletes(s, front) || Completes(Run(s, front), e)
  {
    hide Run, Completes;
    var events := front + [e];
    assert events[..|front|] == front && events[|front|] == e;
    assert forall i :: 0 <= i < |front| ==> events[..i] == front[..i] && events[i] == front[i];
  }

  /** In every run the row becomes complete exactly by a worker that reaches `complete` while the row is its own. */
  lemma {:induction false} CompletedIff(s: System, events: seq<Event>)
    ensures Run(s, events).shared.lease.completed <==> s.shared.lease.completed || SomeoneCompletes(s, events)
  {
    hide Apply, Completes, SomeoneCompletes;
    if events == [] {
      NobodyCompletes(s);
    } else {
      var front, e := events[..|events| - 1], events[|events| - 1];
      CompletedIff(s, front);
      CompletedStep(Run(s, front), e);
      SomeoneSnoc(s, front, e);
      assert events == front + [e];
    }
  }

  lemma NobodyCompletes(s: System)
    ensures !SomeoneCompletes(s, [])
  {
  }

  /**
   * When a worker that went through `complete` finishes, and `run` resolves, the row is complete exactly if it was
   * this worker's own or complete at that step, or another worker has completed it meanwhile.
   */
  lemma CompleteWhenRunResolves(s: System, before: seq<Event>, id: WorkerId, meanwhile: seq<Event>)
    requires var t := Run(s, before); id in t.workers && t.workers[id].pc == Completing
    requires var t := Run(s, before + [Act(id, FinishLease)] + meanwhile);
             id in t.workers && t.workers[id].pc == Leaving
    ensures var finish := Act(id, FinishLease);
            var t := Run(s, before);
            var u := Run(s, before + [finish] + meanwhile + [finish]);
            && id in u.workers && u.workers[id].pc == Finished
            && (u.shared.lease.completed <==>
                  || t.shared.lease.completed || t.shared.lease.owner == Some(id)
                  || SomeoneCompletes(Run(s, before + [finish]), meanwhile))
  {
    var finish := Act(id, FinishLease);
    RunSnoc(s, before, finish);
    RunAppend(s, before + [finish], meanwhile);
    RunSnoc(s, before + [finish] + meanwhile, finish);
    hide Run, SomeoneCompletes;
    CompletedStep(Run(s, before), finish);
    CompletedIff(Run(s, before + [finish]), meanwhile);
    CompletedStep(Run(s, before + [finish] + meanwhile), finish);
  }

  /** At i the worker completed, and it has been leaving ever since. */
  ghost predicate LeavingSince(s: System, events: seq<Event>, id: WorkerId, i: nat) {
    && i < |events| && events[i] == Act(id, FinishLease) && AtPc(Run(s, events[..i]), id, Completing)
    && forall k :: i < k <= |events| ==> AtPc(Run(s, events[..k]), id, Leaving)
  }

  predicate AtPc(s: System, id: WorkerId, pc: Pc) {
    id in s.workers && s.workers[id].pc == pc
  }

  lemma BecomesLeaving(s: System, e: Event, id: WorkerId)
    requires AtPc(Apply(s, e), id, Leaving) && !AtPc(s, id, Leaving)
    ensures e == Act(id, FinishLease) && AtPc(s, id, Completing)
  {
  }

  lemma BecomesFinished(s: System, e: Event, id: WorkerId)
    requires AtPc(Apply(s, e), id, Finished) && !AtPc(s, id, Finished)
    ensures e.Act? && e.id == id && id in s.workers
    ensures || (e.action == CheckComplete && AtPc(s, id, Idle) && s.shared.lease.completed)
            || (e.action == LeaveLoop && AtPc(s, id, Idle) && s.workers[id].aborted)
            || (e.action == FinishLease && AtPc(s, id, Leaving))
    ensures Apply(s, e).shared.lease.completed == s.shared.lease.completed
  {
  }

  lemma {:induction false} LeavingBegan(s: System, events: seq<Event>, id: WorkerId) returns (i: nat)
    requires Init(s) && AtPc(Run(s, events), id, Leaving)
    ensures LeavingSince(s, events, id, i)
  {
    hide Apply;
    var front, e := events[..|events| - 1], events[|events| - 1];
    if AtPc(Run(s, front), id, Leaving) {
      i := LeavingBegan(s, front, id);
    } else {
      i := |front|;
      BecomesLeaving(Run(s, front), e, id);
    }
    assert events[..|events|] == events && forall k :: 0 <= k <= |front| ==> events[..k] == front[..k];
  }

  /** The row after a worker that completed at i has finished. */
  ghost predicate RowAfterComplete(s: System, events: seq<Event>, id: WorkerId, i: nat, completed: bool)
    requires i < |events|
  {
    var t := Run(s, events[..i]);
    completed <==> t.shared.lease.completed || t.shared.lease.owner == Some(id)
                   || SomeoneCompletes(Run(s, events[..i + 1]), events[i + 1..])
  }

  /**
   * Whenever `run` resolves, in any run, the row is complete exactly if it was found complete; or, on the way through
   * `complete`, if it was this worker's own or complete then, or completed by another since; or, when the aborted
   * signal ends the loop, if any worker has completed it.
   */
  lemma WhenRunResolves(s: System, events: seq<Event>, e: Event, id: WorkerId)
    requires Init(s) && AtPc(Apply(Run(s, events), e), id, Finished) && !AtPc(Run(s, events), id, Finished)
    ensures e.Act? && e.id == id && id in Run(s, events).workers
    ensures var t := Run(s, events);
            var completed := Apply(t, e).shared.lease.completed;
            || (e.action == CheckComplete && t.shared.lease.completed && completed)
            || (e.action == LeaveLoop && t.workers[id].aborted && (completed <==> SomeoneCompletes(s, events)))
            || (e.action == FinishLease
                && exists i :: LeavingSince(s, events, id, i) && RowAfterComplete(s, events, id, i, completed))
  {
    var t := Run(s, events);
    BecomesFinished(t, e, id);
    if e.action == LeaveLoop {
      CompletedIff(s, events);
    } else if e.action == FinishLease {
      var i := LeavingBegan(s, events, id);
      ResolvesAfterComplete(s, events, id, i);
    }
  }

  lemma ResolvesAfterComplete(s: System, events: seq<Event>, id: WorkerId, i: nat)
    requires LeavingSince(s, events, id, i)
    ensures RowAfterComplete(s, events, id, i, Apply(Run(s, events), Act(id, FinishLease)).shared.lease.completed)
  {
    hide Run, Apply, SomeoneCompletes;
    var before, meanwhile := events[..i], events[i + 1..];
    assert events == before + [Act(id, FinishLease)] + meanwhile && events[..i + 1] == before + [Act(id, FinishLease)];
    assert AtPc(Run(s, events[..|events|]), id, Leaving) && events[..|events|] == events;
    CompleteWhenRunResolves(s, before, id, meanwhile);
    RunSnoc(s, events, Act(id, FinishLease));
  }

  /** `run` resolves on an aborted signal, whether or not anything was completed: two steps, from any initial state. */
  lemma AbortResolvesRun(s: System, id: WorkerId)
    requires Init(s) && id in s.workers
    ensures var t := Run(s, [Act(id, Abort), Act(id, LeaveLoop)]);
            AtPc(t, id, Finished) && !t.shared.lease.completed
  {
    hide Run, Apply;
    RunNothing(s);
    AbortThenLeave(s, id);
    var aborted := Extend(s, [], Act(id, Abort));
    var left := Extend(s, aborted, Act(id, LeaveLoop));
    assert left == [Act(id, Abort), Act(id, LeaveLoop)];
  }

  lemma AbortThenLeave(s: System, id: WorkerId)
    requires AtPc(s, id, Idle)
    ensures var t := Apply(Apply(s, Act(id, Abort)), Act(id, LeaveLoop));
            AtPc(t, id, Finished) && t.shared == s.shared
  {
    hide AccountStep, LeaseStep, PublishStep;
    var t := Apply(s, Act(id, Abort));
    assert AtPc(t, id, Idle) && t.workers[id].aborted && t.shared == s.shared;
  }

  lemma RunNothing(s: System)
    ensures Run(s, []) == s
  {
  }

  /** Without an abort too it may resolve so: the lease passes on between the last page and `complete`. */
  lemma RunMayResolveBeforeCompletion(s: System, first: Worker, second: Worker)
    returns (events: seq<Event>)
    requires Init(s) && s.workers == map[0 := first, 1 := second] && s.shared.rows == {}
    requires s.shared.lease == Lease(None, 0, false) && !first.aborted && !second.aborted
    ensures var t := Run(s, events);
            0 in t.workers && t.workers[0].pc == Finished && !t.shared.lease.completed
  {
    assert s.workers[0].pc == Idle && s.workers[1].pc == Idle;
    assert Run(s, []) == s;
    hide Run, AccountStep, LeaseStep, PublishStep;
    events := Extend(s, [], Act(0, CheckComplete));
    events := Extend(s, events, Act(0, Acquire(0, 10)));
    var t := Run(s, events);
    assert t.workers[0].pc == Scanning && t.workers[1] == second && t.workers.Keys == {0, 1};
    assert IsPage(t.shared.rows, t.workers[0].cursor, []);
    events := FinishWithoutLease(s, events);
  }

  lemma Extend(s: System, events: seq<Event>, e: Event) returns (longer: seq<Event>)
    ensures longer == events + [e] && Run(s, longer) == Apply(Run(s, events), e)
  {
    longer := events + [e];
    RunSnoc(s, events, e);
  }

  lemma FinishWithoutLease(s: System, events: seq<Event>) returns (longer: seq<Event>)
    requires var t := Run(s, events); t.workers.Keys == {0, 1}
    requires var t := Run(s, events);
             && t.shared.lease == Lease(Some(0), 10, false)
             && IsPage(t.shared.rows, t.workers[0].cursor, [])
             && t.workers[0].pc == Scanning && t.workers[0].page == [] && t.workers[0].failed == 0
             && !t.workers[0].aborted
             && t.workers[1].pc == Idle && !t.workers[1].aborted
    ensures var t := Run(s, longer);
            0 in t.workers && t.workers[0].pc == Finished && !t.shared.lease.completed
  {
    hide Run, AccountStep, LeaseStep, PublishStep;
    longer := Extend(s, events, Act(0, Query([])));
    longer := Extend(s, longer, Act(1, CheckComplete));
    longer := Extend(s, longer, Act(1, Acquire(10, 10)));
    var t := Run(s, longer);
    assert t.workers[0].pc == Completing && t.shared.lease == Lease(Some(1), 20, false);
    longer := Extend(s, longer, Act(0, FinishLease));
    longer := Extend(s, longer, Act(0, FinishLease));
  }
}
