/**
 * Port reservations of processes that share one lock directory.
 *
 * A process announces a sweep by linking a flag file for the current generation and then
 * lists the directory; it gives up when another flag belongs to a running process. The
 * holder of the sweep lock removes the reservations of processes that are gone.
 *
 * Every file holds the id of the process that created it. Reading a file and checking
 * that its process runs are one step; acting on the answer is a later one.
 */
module PortReservations {
  type Pid = nat

  datatype Entry = Port(number: nat) | Owner(pid: Pid) | Sweep(generation: nat)

  type Directory = map<Entry, Pid>

  datatype Pc =
    | Fresh                                           // nothing written yet
    | OwnerReady                                      // the owner file is in place
    | Flagged                                         // the sweep flag is linked
    | Scanning(todo: set<nat>)                        // other flags still to be checked
    | Removing(todo: set<nat>, target: nat)           // the target was judged inactive, unlink pending
    | Yielding(todo: set<nat>)                        // a running sweeper was seen, own unlink pending
    | Holding                                         // the sweep lock is held
    | Sweeping(entries: set<Entry>, doomed: set<Entry>)  // still to be judged; judged stale, unlink pending
    | Releasing
    | Ready                                           // ports may be claimed
    | Broken                                          // initialization failed
    | Exiting(ports: set<nat>)                        // the exit hook runs

  datatype Process = Process(alive: bool, pc: Pc, generation: nat, claimed: set<nat>)

  datatype System = System(
    dir: Directory,
    processes: map<Pid, Process>,
    linked: set<nat>,   // the generations that were ever linked
    relinked: bool,     // some generation was linked a second time
    raced: bool         // a generation was linked while a running process was about to unlink that path
  )

  datatype Event =
    | Boot(p: Pid)
    | LinkFlag(p: Pid, generation: nat)
    | ListFlags(p: Pid)
    | CheckFlag(p: Pid, other: nat)
    | RemoveFlag(p: Pid)
    | Yield(p: Pid)
    | Acquire(p: Pid)
    | ListEntries(p: Pid)
    | Judge(p: Pid, entry: Entry)
    | Remove(p: Pid, entry: Entry)
    | FinishSweep(p: Pid)
    | Release(p: Pid)
    | Claim(p: Pid, port: nat)
    | BeginExit(p: Pid)
    | ExitUnlink(p: Pid, port: nat)
    | FinishExit(p: Pid)
    | Crash(p: Pid)

  predicate Alive(s: System, p: Pid) {
    p in s.processes && s.processes[p].alive
  }

  function Without(dir: Directory, e: Entry): Directory {
    dir - {e}
  }

  function Put(s: System, p: Pid, pr: Process): System {
    s.(processes := s.processes[p := pr])
  }

  predicate IsRemoving(pr: Process, g: nat) {
    pr.alive && pr.pc.Removing? && pr.pc.target == g
  }

  ghost predicate SomeoneRemoving(s: System, g: nat) {
    exists q :: q in s.processes && IsRemoving(s.processes[q], g)
  }

  /** The flag protocol of `acquireSweepLock`. A missing own flag is ignored when yielding, as the code does. */
  ghost function FlagStep(s: System, p: Pid, e: Event): System
    requires p in s.processes
  {
    var pr := s.processes[p];
    match e
    case LinkFlag(_, g) =>
      if pr.pc != OwnerReady then s
      else if Owner(p) !in s.dir then Put(s, p, pr.(pc := Broken))
      else if Sweep(g) in s.dir then Put(s, p, pr.(pc := Ready))
      else
        Put(s.(dir := s.dir[Sweep(g) := p], linked := s.linked + {g},
               relinked := s.relinked || g in s.linked, raced := s.raced || SomeoneRemoving(s, g)),
            p, pr.(pc := Flagged, generation := g))
    case ListFlags(_) =>
      if pr.pc != Flagged then s
      else Put(s, p, pr.(pc := Scanning(FlagsIn(s.dir) - {pr.generation})))
    case CheckFlag(_, g) =>
      if !pr.pc.Scanning? || g !in pr.pc.todo then s
      else
        var rest := pr.pc.todo - {g};
        if Sweep(g) !in s.dir then Put(s, p, pr.(pc := Scanning(rest)))
        else if Alive(s, s.dir[Sweep(g)]) then Put(s, p, pr.(pc := Yielding(rest)))
        else Put(s, p, pr.(pc := Removing(rest, g)))
    case RemoveFlag(_) =>
      if !pr.pc.Removing? then s
      else Put(s.(dir := Without(s.dir, Sweep(pr.pc.target))), p, pr.(pc := Scanning(pr.pc.todo)))
    case Yield(_) =>
      if !pr.pc.Yielding? then s
      else if Sweep(pr.generation) !in s.dir then Put(s, p, pr.(pc := Scanning(pr.pc.todo)))
      else Put(s.(dir := Without(s.dir, Sweep(pr.generation))), p, pr.(pc := Ready))
    case Acquire(_) =>
      if pr.pc != Scanning({}) then s else Put(s, p, pr.(pc := Holding))
    case _ => s
  }

  function FlagsIn(dir: Directory): set<nat> {
    set e | e in dir.Keys && e.Sweep? :: e.generation
  }

  /** `sweepStaleReservations` and the release of the lock. */
  function SweepStep(s: System, p: Pid, e: Event): System
    requires p in s.processes
  {
    var pr := s.processes[p];
    match e
    case ListEntries(_) =>
      if pr.pc != Holding then s
      else Put(s, p, pr.(pc := Sweeping(set e | e in s.dir.Keys && !e.Sweep? && e != Owner(p), {})))
    case Judge(_, entry) =>
      if !pr.pc.Sweeping? || entry !in pr.pc.entries then s
      else
        var rest := pr.pc.entries - {entry};
        if entry in s.dir && !Alive(s, s.dir[entry])
        then Put(s, p, pr.(pc := Sweeping(rest, pr.pc.doomed + {entry})))
        else Put(s, p, pr.(pc := Sweeping(rest, pr.pc.doomed)))
    case Remove(_, entry) =>
      if !pr.pc.Sweeping? || entry !in pr.pc.doomed then s
      else Put(s.(dir := Without(s.dir, entry)), p, pr.(pc := Sweeping(pr.pc.entries, pr.pc.doomed - {entry})))
    case FinishSweep(_) =>
      if pr.pc != Sweeping({}, {}) then s else Put(s, p, pr.(pc := Releasing))
    case Release(_) =>
      if pr.pc != Releasing then s
      else Put(s.(dir := Without(s.dir, Sweep(pr.generation))), p, pr.(pc := Ready))
    case _ => s
  }

  /** Start, claims, exit hook and crash. */
  function LifeStep(s: System, p: Pid, e: Event): System
    requires p in s.processes
  {
    var pr := s.processes[p];
    match e
    case Boot(_) =>
      if pr.pc != Fresh then s else Put(s.(dir := s.dir[Owner(p) := p]), p, pr.(pc := OwnerReady))
    case Claim(_, n) =>
      if pr.pc != Ready || Owner(p) !in s.dir || Port(n) in s.dir then s
      else Put(s.(dir := s.dir[Port(n) := p]), p, pr.(claimed := pr.claimed + {n}))
    case BeginExit(_) =>
      if pr.pc.Exiting? then s else Put(s, p, pr.(pc := Exiting(pr.claimed)))
    case ExitUnlink(_, n) =>
      if !pr.pc.Exiting? || n !in pr.pc.ports then s
      else Put(s.(dir := Without(s.dir, Port(n))), p, pr.(pc := Exiting(pr.pc.ports - {n})))
    case FinishExit(_) =>
      if pr.pc != Exiting({}) then s
      else Put(s.(dir := Without(s.dir, Owner(p))), p, pr.(alive := false))
    case Crash(_) => Put(s, p, pr.(alive := false))
    case _ => s
  }

  ghost function Apply(s: System, e: Event): System {
    if !Alive(s, e.p) then s
    else match e
      case LinkFlag(_, _) => FlagStep(s, e.p, e)
      case ListFlags(_) => FlagStep(s, e.p, e)
      case CheckFlag(_, _) => FlagStep(s, e.p, e)
      case RemoveFlag(_) => FlagStep(s, e.p, e)
      case Yield(_) => FlagStep(s, e.p, e)
      case Acquire(_) => FlagStep(s, e.p, e)
      case ListEntries(_) => SweepStep(s, e.p, e)
      case Judge(_, _) => SweepStep(s, e.p, e)
      case Remove(_, _) => SweepStep(s, e.p, e)
      case FinishSweep(_) => SweepStep(s, e.p, e)
      case Release(_) => SweepStep(s, e.p, e)
      case _ => LifeStep(s, e.p, e)
  }

  ghost function Run(s: System, events: seq<Event>): System {
    if events == [] then s else Apply(Run(s, events[..|events| - 1]), events[|events| - 1])
  }

  /**
   * Processes have not started or have only written their owner file; everything else in the directory was left
   * behind by processes that are gone.
   */
  ghost predicate Init(s: System) {
    && !s.relinked && !s.raced
    && (forall p :: p in s.processes ==> Starting(s, p))
    && (forall e :: e in s.dir && s.dir[e] in s.processes ==> e.Owner?)
    && (forall e :: e in s.dir && e.Owner? ==> s.dir[e] == e.pid)
    && s.linked == FlagsIn(s.dir)
  }

  predicate Starting(s: System, p: Pid)
    requires p in s.processes
  {
    s.processes[p] == Process(true, if Owner(p) in s.dir then OwnerReady else Fresh, 0, {})
  }

  // ----- invariants -----

  predicate HasFlag(pr: Process) {
    pr.alive && (pr.pc.Flagged? || Listed(pr))
  }

  predicate Listed(pr: Process) {
    pr.alive && (pr.pc.Scanning? || pr.pc.Removing? || pr.pc.Yielding? || IsHolder(pr))
  }

  predicate IsHolder(pr: Process) {
    pr.alive && (pr.pc.Holding? || pr.pc.Sweeping? || pr.pc.Releasing?)
  }

  /** A process that will still meet the flag of generation g, or will give up anyway. */
  predicate WillMeet(pr: Process, g: nat) {
    pr.pc.Yielding? || ((pr.pc.Scanning? || pr.pc.Removing?) && g in pr.pc.todo)
  }

  predicate Reserves(pr: Process, n: nat) {
    pr.alive && n in (if pr.pc.Exiting? then pr.pc.ports else pr.claimed)
  }

  /** A process that announced a sweep has its flag in the directory. */
  ghost predicate FlagOk(dir: Directory, p: Pid, pr: Process) {
    HasFlag(pr) ==> Sweep(pr.generation) in dir && dir[Sweep(pr.generation)] == p
  }

  /** The reservations of a running process are in the directory. */
  ghost predicate ReservationsOk(dir: Directory, p: Pid, pr: Process) {
    && (forall n :: Reserves(pr, n) ==> Port(n) in dir && dir[Port(n)] == p)
    && (pr.pc.Fresh? ==> pr.claimed == {})
  }

  /** What a process is about to unlink belongs to a process that is gone. */
  ghost predicate UnlinksOk(s: System, pr: Process) {
    && (pr.alive && pr.pc.Removing? ==>
          pr.pc.target in s.linked && (Sweep(pr.pc.target) in s.dir ==> !Alive(s, s.dir[Sweep(pr.pc.target)])))
    && (pr.alive && pr.pc.Sweeping? ==>
          && (forall e :: e in pr.pc.doomed ==> !e.Sweep? && e in s.dir && !Alive(s, s.dir[e]))
          && (forall e :: e in pr.pc.entries ==> !e.Sweep?))
  }

  ghost predicate ProcessOk(s: System, p: Pid)
    requires p in s.processes
  {
    FlagOk(s.dir, p, s.processes[p]) && ReservationsOk(s.dir, p, s.processes[p]) && UnlinksOk(s, s.processes[p])
  }

  ghost predicate PairOk(p: Process, q: Process) {
    Listed(p) && Listed(q) ==> WillMeet(p, q.generation) || WillMeet(q, p.generation)
  }

  ghost predicate MutualOk(s: System) {
    forall p, q :: p in s.processes && q in s.processes && p != q ==> PairOk(s.processes[p], s.processes[q])
  }

  ghost predicate DirectoryOk(s: System) {
    && (forall e :: e in s.dir && e.Owner? ==> s.dir[e] == e.pid)
    && (forall g :: Sweep(g) in s.dir ==> g in s.linked)
    && (s.raced ==> s.relinked)
  }

  ghost predicate Inv(s: System) {
    (forall p :: p in s.processes ==> ProcessOk(s, p)) && MutualOk(s) && DirectoryOk(s)
  }

  // ----- what a step of one process leaves to another -----

  /** An entry that may disappear as far as process q is concerned. */
  predicate Expendable(q: Process, e: Entry) {
    match e
    case Sweep(g) => !HasFlag(q) || q.generation != g
    case Port(n) => !Reserves(q, n) && !(q.alive && q.pc.Sweeping? && e in q.pc.doomed)
    case Owner(_) => !(q.alive && q.pc.Sweeping? && e in q.pc.doomed)
  }

  ghost predicate Frame(s: System, s': System, q: Pid)
    requires q in s.processes
  {
    && q in s'.processes && s'.processes[q] == s.processes[q]
    && (forall r :: Alive(s', r) ==> Alive(s, r))
    && (forall e :: e in s.dir && e in s'.dir ==> s'.dir[e] == s.dir[e])
    && (forall e :: e in s.dir && e !in s'.dir ==> Expendable(s.processes[q], e))
    && (forall e :: e in s'.dir && e !in s.dir && e.Sweep? ==> !IsRemoving(s.processes[q], e.generation))
    && s.linked <= s'.linked
  }

  lemma FrameOk(s: System, s': System, q: Pid)
    requires q in s.processes && ProcessOk(s, q) && Frame(s, s', q)
    ensures ProcessOk(s', q)
  {
  }

  /** Two running processes cannot both be past the listing without one of them still to meet the other. */
  lemma HoldersExclude(s: System, p: Pid, q: Pid)
    requires Inv(s) && p in s.processes && q in s.processes
    requires IsHolder(s.processes[p]) && IsHolder(s.processes[q])
    ensures p == q
  {
    assert p != q ==> PairOk(s.processes[p], s.processes[q]);
  }

  lemma Conclude(s: System, s': System, p: Pid)
    requires Inv(s) && p in s.processes && s'.processes.Keys == s.processes.Keys
    requires ProcessOk(s', p) && DirectoryOk(s')
    requires forall q :: q in s.processes && q != p ==> Frame(s, s', q)
    requires forall q :: q in s.processes && q != p ==>
               PairOk(s'.processes[p], s'.processes[q]) && PairOk(s'.processes[q], s'.processes[p])
    ensures Inv(s')
  {
    forall q | q in s'.processes && q != p ensures ProcessOk(s', q) {
      FrameOk(s, s', q);
    }
    forall a, b | a in s'.processes && b in s'.processes && a != b
      ensures PairOk(s'.processes[a], s'.processes[b])
    {
      assert a != p && b != p ==> Frame(s, s', a) && Frame(s, s', b);
    }
  }

  /** A step of p that leaves the directory alone. */
  lemma ConcludeSameDirectory(s: System, s': System, p: Pid)
    requires Inv(s) && Alive(s, p) && p in s'.processes && s' == Put(s, p, s'.processes[p])
    requires ProcessOk(s', p)
    requires forall q :: q in s.processes && q != p ==>
               PairOk(s'.processes[p], s'.processes[q]) && PairOk(s'.processes[q], s'.processes[p])
    ensures Inv(s')
  {
    hide ProcessOk, PairOk, MutualOk;
    Conclude(s, s', p);
  }

  // ----- the flag protocol keeps the invariant -----

  /** A newly linked flag; nobody is about to unlink its path. */
  lemma NewFlagOk(s: System, s': System, p: Pid, g: nat)
    requires Inv(s) && Alive(s, p) && s.processes[p].pc == OwnerReady && Sweep(g) !in s.dir
    requires !SomeoneRemoving(s, g)
    requires s' == Put(s.(dir := s.dir[Sweep(g) := p], linked := s.linked + {g}, relinked := s'.relinked),
                       p, s.processes[p].(pc := Flagged, generation := g))
    requires s.relinked ==> s'.relinked
    ensures Inv(s')
  {
    assert ProcessOk(s, p);
    assert ProcessOk(s', p);
    Conclude(s, s', p);
  }

  lemma LinkFlagOk(s: System, p: Pid, g: nat)
    requires Inv(s) && Alive(s, p)
    ensures var s' := Apply(s, LinkFlag(p, g)); (s'.raced ==> s'.relinked) && (!s'.raced ==> Inv(s'))
  {
    var s', pr := Apply(s, LinkFlag(p, g)), s.processes[p];
    assert ProcessOk(s, p);
    if pr.pc == OwnerReady {
      if Owner(p) !in s.dir || Sweep(g) in s.dir {
        QuietOk(s, s', p);
      } else if SomeoneRemoving(s, g) {
        var q :| q in s.processes && IsRemoving(s.processes[q], g);
        assert ProcessOk(s, q);
      } else if !s'.raced {
        NewFlagOk(s, s', p, g);
      }
    }
  }

  lemma ListFlagsOk(s: System, p: Pid)
    requires Inv(s) && Alive(s, p)
    ensures Inv(Apply(s, ListFlags(p)))
  {
    var s' := Apply(s, ListFlags(p));
    assert ProcessOk(s, p);
    forall q | q in s.processes && q != p && s.processes[p].pc == Flagged && HasFlag(s.processes[q])
      ensures WillMeet(s'.processes[p], s.processes[q].generation)
    {
      assert ProcessOk(s, q);
      assert Sweep(s.processes[q].generation) in s.dir.Keys;
    }
    ConcludeSameDirectory(s, s', p);
  }

  /** Whoever is crossed off the list is gone, or has not listed and will meet this process. */
  lemma CheckFlagPairs(s: System, p: Pid, g: nat, q: Pid)
    requires Inv(s) && Alive(s, p) && q in s.processes && q != p
    ensures var pr := FlagStep(s, p, CheckFlag(p, g)).processes[p];
            PairOk(pr, s.processes[q]) && PairOk(s.processes[q], pr)
  {
    assert ProcessOk(s, q) && PairOk(s.processes[p], s.processes[q]);
  }

  lemma CheckFlagOk(s: System, p: Pid, g: nat)
    requires Inv(s) && Alive(s, p)
    ensures Inv(FlagStep(s, p, CheckFlag(p, g)))
  {
    var s' := FlagStep(s, p, CheckFlag(p, g));
    assert ProcessOk(s, p);
    assert ProcessOk(s', p);
    forall q | q in s.processes && q != p
      ensures PairOk(s'.processes[p], s'.processes[q]) && PairOk(s'.processes[q], s'.processes[p])
    {
      CheckFlagPairs(s, p, g, q);
    }
    hide ProcessOk, PairOk;
    ConcludeSameDirectory(s, s', p);
  }

  lemma RemoveFlagOk(s: System, p: Pid)
    requires Inv(s) && Alive(s, p)
    ensures Inv(Apply(s, RemoveFlag(p)))
  {
    var s' := Apply(s, RemoveFlag(p));
    assert ProcessOk(s, p);
    forall q | q in s.processes && q != p
      ensures Frame(s, s', q)
      ensures PairOk(s'.processes[p], s'.processes[q]) && PairOk(s'.processes[q], s'.processes[p])
    {
      assert ProcessOk(s, q) && PairOk(s.processes[p], s.processes[q]);
    }
    Conclude(s, s', p);
  }

  lemma YieldOk(s: System, p: Pid)
    requires Inv(s) && Alive(s, p)
    ensures Inv(Apply(s, Yield(p)))
  {
    var s' := Apply(s, Yield(p));
    assert ProcessOk(s, p);
    forall q | q in s.processes && q != p ensures Frame(s, s', q) {
      assert ProcessOk(s, q);
    }
    Conclude(s, s', p);
  }

  lemma AcquireOk(s: System, p: Pid)
    requires Inv(s) && Alive(s, p)
    ensures Inv(Apply(s, Acquire(p)))
  {
    var s' := Apply(s, Acquire(p));
    assert ProcessOk(s, p);
    forall q | q in s.processes && q != p
      ensures PairOk(s'.processes[p], s'.processes[q]) && PairOk(s'.processes[q], s'.processes[p])
    {
      assert PairOk(s.processes[p], s.processes[q]);
    }
    ConcludeSameDirectory(s, s', p);
  }

  // ----- sweeping, claiming, exiting and crashing keep the invariant -----

  /** A step that leaves the directory alone and does not enter the flag protocol. */
  lemma QuietOk(s: System, s': System, p: Pid)
    requires Inv(s) && Alive(s, p) && s'.processes.Keys == s.processes.Keys && ProcessOk(s', p)
    requires s' == Put(s, p, s'.processes[p])
    requires s'.processes[p].generation == s.processes[p].generation
    requires Listed(s'.processes[p]) ==> IsHolder(s'.processes[p]) && IsHolder(s.processes[p])
    ensures Inv(s')
  {
    forall q | q in s.processes && q != p
      ensures PairOk(s'.processes[p], s'.processes[q]) && PairOk(s'.processes[q], s'.processes[p])
    {
      assert PairOk(s.processes[p], s.processes[q]);
    }
    ConcludeSameDirectory(s, s', p);
  }

  /** A step that removes one entry. */
  lemma UnlinkOk(s: System, s': System, p: Pid, e: Entry)
    requires Inv(s) && Alive(s, p) && s'.processes.Keys == s.processes.Keys && ProcessOk(s', p)
    requires s' == Put(s.(dir := Without(s.dir, e)), p, s'.processes[p])
    requires s'.processes[p].generation == s.processes[p].generation
    requires Listed(s'.processes[p]) ==> IsHolder(s'.processes[p]) && IsHolder(s.processes[p])
    requires forall q :: q in s.processes && q != p ==> Expendable(s.processes[q], e)
    ensures Inv(s')
  {
    forall q | q in s.processes && q != p
      ensures PairOk(s'.processes[p], s'.processes[q]) && PairOk(s'.processes[q], s'.processes[p])
    {
      assert PairOk(s.processes[p], s.processes[q]);
    }
    Conclude(s, s', p);
  }

  lemma JudgeOk(s: System, p: Pid, e: Event)
    requires Inv(s) && Alive(s, p) && (e.ListEntries? || e.Judge? || e.FinishSweep?)
    ensures Inv(SweepStep(s, p, e))
  {
    var s' := SweepStep(s, p, e);
    assert ProcessOk(s, p);
    if s' != s {
      QuietOk(s, s', p);
    } else {
      assert s'.processes == s.processes;
    }
  }

  /** What the holder of the lock unlinks is of no use to any other running process. */
  lemma RemoveOk(s: System, p: Pid, entry: Entry)
    requires Inv(s) && Alive(s, p)
    ensures Inv(SweepStep(s, p, Remove(p, entry)))
  {
    var s', pr := SweepStep(s, p, Remove(p, entry)), s.processes[p];
    if pr.pc.Sweeping? && entry in pr.pc.doomed {
      assert ProcessOk(s, p);
      forall q | q in s.processes && q != p ensures Expendable(s.processes[q], entry) {
        assert ProcessOk(s, q);
        if IsHolder(s.processes[q]) {
          HoldersExclude(s, p, q);
        }
      }
      UnlinkOk(s, s', p, entry);
    }
  }

  lemma ReleaseOk(s: System, p: Pid)
    requires Inv(s) && Alive(s, p)
    ensures Inv(SweepStep(s, p, Release(p)))
  {
    var s', pr := SweepStep(s, p, Release(p)), s.processes[p];
    if pr.pc == Releasing {
      assert ProcessOk(s, p);
      forall q | q in s.processes && q != p ensures Expendable(s.processes[q], Sweep(pr.generation)) {
        assert ProcessOk(s, q);
      }
      UnlinkOk(s, s', p, Sweep(pr.generation));
    }
  }

  lemma BootOk(s: System, p: Pid)
    requires Inv(s) && Alive(s, p)
    ensures Inv(LifeStep(s, p, Boot(p)))
  {
    var s' := LifeStep(s, p, Boot(p));
    assert ProcessOk(s, p);
    if s' != s {
      Conclude(s, s', p);
    }
  }

  lemma ClaimOk(s: System, p: Pid, n: nat)
    requires Inv(s) && Alive(s, p)
    ensures Inv(LifeStep(s, p, Claim(p, n)))
  {
    var s' := LifeStep(s, p, Claim(p, n));
    assert ProcessOk(s, p);
    if s' != s {
      Conclude(s, s', p);
    }
  }

  lemma ExitUnlinkOk(s: System, p: Pid, n: nat)
    requires Inv(s) && Alive(s, p)
    ensures Inv(LifeStep(s, p, ExitUnlink(p, n)))
  {
    var s', pr := LifeStep(s, p, ExitUnlink(p, n)), s.processes[p];
    assert ProcessOk(s, p);
    if pr.pc.Exiting? && n in pr.pc.ports {
      assert Reserves(pr, n);
      forall q | q in s.processes && q != p ensures Expendable(s.processes[q], Port(n)) {
        assert ProcessOk(s, q);
      }
      UnlinkOk(s, s', p, Port(n));
    }
  }

  lemma ExitOk(s: System, p: Pid, e: Event)
    requires Inv(s) && Alive(s, p) && (e.BeginExit? || e.FinishExit?)
    ensures Inv(LifeStep(s, p, e))
  {
    var s', pr := LifeStep(s, p, e), s.processes[p];
    assert ProcessOk(s, p);
    if e.BeginExit? && !pr.pc.Exiting? {
      QuietOk(s, s', p);
    } else if e.FinishExit? && pr.pc == Exiting({}) {
      forall q | q in s.processes && q != p ensures Frame(s, s', q) {
        assert ProcessOk(s, q);
      }
      Conclude(s, s', p);
    }
  }

  lemma CrashOk(s: System, p: Pid)
    requires Inv(s) && Alive(s, p)
    ensures Inv(LifeStep(s, p, Crash(p)))
  {
    Conclude(s, LifeStep(s, p, Crash(p)), p);
  }

  lemma ApplyOk(s: System, e: Event)
    requires Inv(s)
    ensures var s' := Apply(s, e); (s'.raced ==> s'.relinked) && (!s'.raced ==> Inv(s')) && (s.raced ==> s'.raced)
  {
    hide FlagStep, SweepStep, LifeStep, ProcessOk, MutualOk;
    RelinkedStays(s, e);
    if Alive(s, e.p) {
      match e
      case LinkFlag(p, g) => LinkFlagOk(s, p, g);
      case ListFlags(p) => ListFlagsOk(s, p);
      case CheckFlag(p, g) => CheckFlagOk(s, p, g);
      case RemoveFlag(p) => RemoveFlagOk(s, p);
      case Yield(p) => YieldOk(s, p);
      case Acquire(p) => AcquireOk(s, p);
      case Remove(p, entry) => RemoveOk(s, p, entry);
      case Release(p) => ReleaseOk(s, p);
      case Boot(p) => BootOk(s, p);
      case Claim(p, n) => ClaimOk(s, p, n);
      case Crash(p) => CrashOk(s, p);
      case BeginExit(p) => ExitOk(s, p, e);
      case ExitUnlink(p, n) => ExitUnlinkOk(s, p, n);
      case FinishExit(p) => ExitOk(s, p, e);
      case _ => JudgeOk(s, e.p, e);
    }
  }

  lemma InitOk(s: System)
    requires Init(s)
    ensures Inv(s)
  {
    forall p | p in s.processes ensures ProcessOk(s, p) && !Listed(s.processes[p]) {
      assert Starting(s, p);
    }
    forall g | Sweep(g) in s.dir ensures g in s.linked {
      assert Sweep(g) in s.dir.Keys && Sweep(g).generation == g;
    }
  }

  lemma {:induction false} RunOk(s: System, events: seq<Event>)
    requires Init(s)
    ensures var t := Run(s, events); (t.raced ==> t.relinked) && (!t.raced ==> Inv(t))
  {
    if events == [] {
      InitOk(s);
    } else {
      var front, e := events[..|events| - 1], events[|events| - 1];
      RunOk(s, front);
      var t := Run(s, front);
      if t.raced {
        RelinkedStays(t, e);
      } else {
        ApplyOk(t, e);
      }
    }
  }

  lemma RelinkedStays(s: System, e: Event)
    ensures s.raced ==> Apply(s, e).raced
    ensures s.relinked ==> Apply(s, e).relinked
  {
  }

  // ----- main results -----

  predicate Holds(s: System, p: Pid) {
    p in s.processes && IsHolder(s.processes[p])
  }

  /** A running process, not yet exiting, that was handed the port. */
  predicate Owns(s: System, p: Pid, n: nat) {
    Alive(s, p) && !s.processes[p].pc.Exiting? && n in s.processes[p].claimed
  }

  ghost predicate Safe(s: System) {
    && (forall p, q :: Holds(s, p) && Holds(s, q) ==> p == q)
    && (forall p, n :: Owns(s, p, n) ==> Port(n) in s.dir && s.dir[Port(n)] == p)
    && (forall p, q, n :: Owns(s, p, n) && Owns(s, q, n) ==> p == q)
  }

  lemma InvSafe(s: System)
    requires Inv(s)
    ensures Safe(s)
  {
    forall p, q | Holds(s, p) && Holds(s, q) ensures p == q {
      HoldersExclude(s, p, q);
    }
    forall p, n | Owns(s, p, n) ensures Port(n) in s.dir && s.dir[Port(n)] == p {
      assert ProcessOk(s, p) && Reserves(s.processes[p], n);
    }
  }

  /**
   * In every run in which no generation is linked under the hand of a process about to unlink that
   * path, one process at most holds the sweep lock, every reservation of a running process stays in
   * the directory, and no port has two owners. The condition is the guard that `LinkFlag` lacks.
   */
  lemma SweepingIsSafe(s: System, events: seq<Event>)
    requires Init(s) && !Run(s, events).raced
    ensures Safe(Run(s, events))
  {
    RunOk(s, events);
    InvSafe(Run(s, events));
  }

  /** In particular when each generation is linked at most once. */
  lemma SafeWhenGenerationsAreFresh(s: System, events: seq<Event>)
    requires Init(s) && !Run(s, events).relinked
    ensures Safe(Run(s, events))
  {
    RunOk(s, events);
    InvSafe(Run(s, events));
  }

  /** A sweep step takes no reservation away from a process that is running. */
  lemma SweepRemovesOnlyStaleEntries(s: System, events: seq<Event>, e: Event, entry: Entry)
    requires Init(s) && !Run(s, events).raced && (e.Remove? || e.RemoveFlag?)
    requires entry in Run(s, events).dir && entry !in Apply(Run(s, events), e).dir
    ensures !Alive(Run(s, events), Run(s, events).dir[entry])
  {
    RunOk(s, events);
    assert ProcessOk(Run(s, events), e.p);
  }

  // ----- without the condition -----

  lemma Extend(s: System, events: seq<Event>, t: System, e: Event) returns (longer: seq<Event>, u: System)
    requires Run(s, events) == t
    ensures longer == events + [e] && u == Apply(t, e) && Run(s, longer) == u
  {
    hide Apply;
    longer, u := events + [e], Apply(t, e);
    assert longer[..|events|] == events;
  }

  /** The directory holds exactly these flags. */
  ghost predicate Flags(s: System, gs: set<nat>) {
    forall g :: g in gs <==> Sweep(g) in s.dir
  }

  lemma FlagsListed(s: System, gs: set<nat>)
    requires Flags(s, gs)
    ensures FlagsIn(s.dir) == gs
  {
    forall g | g in gs ensures g in FlagsIn(s.dir) {
      assert Sweep(g) in s.dir.Keys && Sweep(g).generation == g;
    }
  }

  /** Nothing left to check, p is about to unlink the free path of generation g; q is about to announce itself. */
  ghost predicate Hazard(s: System, p: Pid, q: Pid, g: nat) {
    && p != q && Alive(s, p) && Alive(s, q)
    && s.processes[p].pc == Removing({}, g) && s.processes[p].generation != g
    && s.processes[q].pc == OwnerReady && Owner(q) in s.dir
    && Flags(s, {s.processes[p].generation}) && FlagOk(s.dir, p, s.processes[p])
  }

  /**
   * From every such state, if q links generation g, two processes can come to hold the lock: p unlinks q's flag, q
   * lists only p's, and q, finding its own flag already gone, does not give up.
   */
  lemma HazardBreaksExclusion(r: System, before: seq<Event>, s: System, p: Pid, q: Pid, g: nat)
    returns (events: seq<Event>)
    requires Run(r, before) == s && Hazard(s, p, q, g)
    ensures before + [LinkFlag(q, g)] <= events
    ensures Holds(Run(r, events), p) && Holds(Run(r, events), q)
  {
    hide Run, SweepStep, LifeStep;
    var gp, t := s.processes[p].generation, s;
    events, t := Extend(r, before, t, LinkFlag(q, g));
    events, t := Extend(r, events, t, RemoveFlag(p));
    assert Flags(t, {gp}) && t.processes[q].pc == Flagged && t.processes[p].pc == Scanning({});
    events, t := Extend(r, events, t, Acquire(p));
    assert Holds(t, p) && t.dir[Sweep(gp)] == p;
    FlagsListed(t, {gp});
    events, t := BothHold(r, events, t, p, q);
  }

  lemma BothHold(r: System, before: seq<Event>, s: System, p: Pid, q: Pid) returns (events: seq<Event>, t: System)
    requires Run(r, before) == s && p != q && Holds(s, p) && Alive(s, q) && s.processes[q].pc == Flagged
    requires var gp := s.processes[p].generation;
             && gp != s.processes[q].generation
             && FlagsIn(s.dir) == {gp} && Sweep(gp) in s.dir && s.dir[Sweep(gp)] == p
             && Sweep(s.processes[q].generation) !in s.dir
    ensures before <= events && Run(r, events) == t && Holds(t, p) && Holds(t, q)
  {
    hide Run, SweepStep, LifeStep;
    var gp := s.processes[p].generation;
    events, t := Extend(r, before, s, ListFlags(q));
    assert t.processes[q].pc == Scanning({gp});
    events, t := Extend(r, events, t, CheckFlag(q, gp));
    assert {gp} - {gp} == {} && t.processes[q].pc == Yielding({});
    events, t := Extend(r, events, t, Yield(q));
    assert t.processes[q].pc == Scanning({});
    events, t := Extend(r, events, t, Acquire(q));
  }

  /** The flag of process 9, which is gone, and three processes that are about to announce a sweep. */
  const LEFT_BEHIND := System(
    map[Owner(1) := 1, Owner(2) := 2, Owner(3) := 3, Sweep(5) := 9],
    map[1 := Process(true, OwnerReady, 0, {}), 2 := Process(true, OwnerReady, 0, {}),
        3 := Process(true, OwnerReady, 0, {})],
    {5}, false, false)

  /** What the run to the hazard needs of a state. */
  ghost predicate Stage(s: System, one: Pc, two: Pc, flags: set<nat>) {
    && Alive(s, 1) && Alive(s, 2) && Alive(s, 3) && !Alive(s, 9)
    && s.processes[1].pc == one && s.processes[2].pc == two && s.processes[3].pc == OwnerReady
    && Owner(1) in s.dir && Owner(2) in s.dir && Owner(3) in s.dir
    && Flags(s, flags)
    && (Sweep(5) in s.dir ==> s.dir[Sweep(5)] == 9)
    && (Sweep(6) in s.dir ==> s.dir[Sweep(6)] == 1 && s.processes[1].generation == 6)
    && (Sweep(7) in s.dir ==> s.processes[2].generation == 7)
  }

  lemma FirstAnnounces(r: System, before: seq<Event>, s: System) returns (events: seq<Event>, t: System)
    requires Run(r, before) == s && Stage(s, OwnerReady, OwnerReady, {5})
    ensures Run(r, events) == t && Stage(t, Scanning({5}), OwnerReady, {5, 6})
  {
    hide Run, SweepStep, LifeStep;
    events, t := Extend(r, before, s, LinkFlag(1, 6));
    assert Stage(t, Flagged, OwnerReady, {5, 6});
    FlagsListed(t, {5, 6});
    assert {5, 6} - {6} == {5};
    events, t := Extend(r, events, t, ListFlags(1));
  }

  lemma SecondAnnounces(r: System, before: seq<Event>, s: System) returns (events: seq<Event>, t: System)
    requires Run(r, before) == s && Stage(s, Scanning({5}), OwnerReady, {5, 6})
    ensures Run(r, events) == t && Stage(t, Scanning({5}), Scanning({5, 6}), {5, 6, 7})
  {
    hide Run, SweepStep, LifeStep;
    events, t := Extend(r, before, s, LinkFlag(2, 7));
    assert Stage(t, Scanning({5}), Flagged, {5, 6, 7});
    FlagsListed(t, {5, 6, 7});
    assert {5, 6, 7} - {7} == {5, 6};
    events, t := Extend(r, events, t, ListFlags(2));
  }

  lemma BothJudge(r: System, before: seq<Event>, s: System) returns (events: seq<Event>, t: System)
    requires Run(r, before) == s && Stage(s, Scanning({5}), Scanning({5, 6}), {5, 6, 7})
    ensures Run(r, events) == t && Stage(t, Removing({}, 5), Removing({6}, 5), {5, 6, 7})
  {
    hide Run, SweepStep, LifeStep;
    assert {5} - {5} == {} && {5, 6} - {5} == {6};
    events, t := Extend(r, before, s, CheckFlag(1, 5));
    assert Stage(t, Removing({}, 5), Scanning({5, 6}), {5, 6, 7});
    events, t := Extend(r, events, t, CheckFlag(2, 5));
  }

  lemma SecondRemoves(r: System, before: seq<Event>, s: System) returns (events: seq<Event>, t: System)
    requires Run(r, before) == s && Stage(s, Removing({}, 5), Removing({6}, 5), {5, 6, 7})
    ensures Run(r, events) == t && Stage(t, Removing({}, 5), Scanning({6}), {6, 7})
  {
    hide Run, SweepStep, LifeStep;
    events, t := Extend(r, before, s, RemoveFlag(2));
  }

  lemma SecondMeets(r: System, before: seq<Event>, s: System) returns (events: seq<Event>, t: System)
    requires Run(r, before) == s && Stage(s, Removing({}, 5), Scanning({6}), {6, 7})
    ensures Run(r, events) == t && Stage(t, Removing({}, 5), Yielding({}), {6, 7})
  {
    hide Run, SweepStep, LifeStep;
    assert {6} - {6} == {};
    events, t := Extend(r, before, s, CheckFlag(2, 6));
  }

  lemma SecondYields(r: System, before: seq<Event>, s: System) returns (events: seq<Event>, t: System)
    requires Run(r, before) == s && Stage(s, Removing({}, 5), Yielding({}), {6, 7})
    ensures Run(r, events) == t && Stage(t, Removing({}, 5), Ready, {6})
  {
    hide Run, SweepStep, LifeStep;
    events, t := Extend(r, before, s, Yield(2));
  }

  lemma HazardIsReached(r: System, before: seq<Event>, s: System) returns (events: seq<Event>, t: System)
    requires Run(r, before) == s && Stage(s, OwnerReady, OwnerReady, {5})
    ensures Run(r, events) == t && Hazard(t, 1, 3, 5)
  {
    hide Run, Apply;
    events, t := FirstAnnounces(r, before, s);
    events, t := SecondAnnounces(r, events, t);
    events, t := BothJudge(r, events, t);
    events, t := SecondRemoves(r, events, t);
    events, t := SecondMeets(r, events, t);
    events, t := SecondYields(r, events, t);
    assert t.processes[1].generation == 6;
  }

  lemma LeftBehindStarts()
    ensures Init(LEFT_BEHIND) && Stage(LEFT_BEHIND, OwnerReady, OwnerReady, {5})
  {
    assert Starting(LEFT_BEHIND, 1) && Starting(LEFT_BEHIND, 2) && Starting(LEFT_BEHIND, 3);
    FlagsListed(LEFT_BEHIND, {5});
  }

  /** The hazard is reachable, so the directory protocol alone does not exclude two holders. */
  lemma TwoHoldersAfterRelink() returns (events: seq<Event>)
    ensures Init(LEFT_BEHIND)
    ensures var t := Run(LEFT_BEHIND, events); t.raced && Holds(t, 1) && Holds(t, 3)
  {
    hide Apply, Init, Stage;
    LeftBehindStarts();
    var t;
    events, t := HazardIsReached(LEFT_BEHIND, [], LEFT_BEHIND);
    events := HazardBreaksExclusion(LEFT_BEHIND, events, t, 1, 3, 5);
    if !Run(LEFT_BEHIND, events).raced {
      SweepingIsSafe(LEFT_BEHIND, events);
    }
  }
}
