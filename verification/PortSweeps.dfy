/**
 * What the steps of port reservation achieve: what a sweep removes, who gets past the flags of others,
 * and what an exit leaves behind.
 */
module PortSweeps {
  import opened PortReservations

  // ----- a sweep removes what is stale -----

  /** A file at this path, with this content, of a process that is gone. */
  predicate StaleOf(s: System, entry: Entry, q: Pid) {
    entry in s.dir && s.dir[entry] == q && !Alive(s, q)
  }

  /** While p sweeps it still has the stale entry to judge or to unlink; afterwards the entry is gone. */
  predicate Pursued(s: System, p: Pid, entry: Entry, q: Pid) {
    && p in s.processes && !Alive(s, q)
    && match s.processes[p].pc
       case Sweeping(entries, doomed) => StaleOf(s, entry, q) ==> entry in entries || entry in doomed
       case Releasing => !StaleOf(s, entry, q)
       case Ready => !StaleOf(s, entry, q)
       case Exiting(_) => true
       case _ => false
  }

  /** A step of p writes only files with p's content, and touches no other process. */
  ghost predicate Writes(s: System, t: System, p: Pid) {
    && (forall e :: e in t.dir && t.dir[e] != p ==> e in s.dir && s.dir[e] == t.dir[e])
    && p in t.processes && t.processes == s.processes[p := t.processes[p]]
  }

  lemma FlagWrites(s: System, e: Event)
    requires Alive(s, e.p)
    ensures Writes(s, FlagStep(s, e.p, e), e.p)
  {
  }

  lemma SweepWrites(s: System, e: Event)
    requires Alive(s, e.p)
    ensures Writes(s, SweepStep(s, e.p, e), e.p)
  {
  }

  lemma LifeWrites(s: System, e: Event)
    requires Alive(s, e.p)
    ensures Writes(s, LifeStep(s, e.p, e), e.p)
  {
  }

  lemma StepWrites(s: System, e: Event)
    requires Alive(s, e.p)
    ensures Writes(s, Apply(s, e), e.p)
  {
    hide FlagStep, SweepStep, LifeStep, Writes;
    FlagWrites(s, e);
    SweepWrites(s, e);
    LifeWrites(s, e);
  }

  /** The file of a process that is gone is written by nobody, and another process's steps leave p's state alone. */
  lemma StaleStep(s: System, e: Event, p: Pid, entry: Entry, q: Pid)
    requires p in s.processes && !Alive(s, q)
    ensures var t := Apply(s, e);
            && p in t.processes && !Alive(t, q) && (StaleOf(t, entry, q) ==> StaleOf(s, entry, q))
            && (e.p != p ==> t.processes[p] == s.processes[p])
  {
    hide FlagStep, SweepStep, LifeStep;
    if Alive(s, e.p) {
      StepWrites(s, e);
    }
  }

  /** Of p's own steps, only judging and unlinking shorten its lists. */
  lemma PursuingStep(s: System, e: Event, p: Pid, entry: Entry, q: Pid)
    requires Pursued(s, p, entry, q) && e.p == p && Alive(s, p)
    ensures Pursued(SweepStep(s, p, e), p, entry, q)
  {
    StaleStep(s, e, p, entry, q);
  }

  lemma PursuedStep(s: System, e: Event, p: Pid, entry: Entry, q: Pid)
    requires Pursued(s, p, entry, q)
    ensures Pursued(Apply(s, e), p, entry, q)
  {
    hide SweepStep;
    StaleStep(s, e, p, entry, q);
    if e.p == p && Alive(s, p) {
      PursuingStep(s, e, p, entry, q);
    }
  }

  lemma {:induction false} PursuedRun(s: System, events: seq<Event>, p: Pid, entry: Entry, q: Pid)
    requires Pursued(s, p, entry, q)
    ensures Pursued(Run(s, events), p, entry, q)
  {
    hide Apply, Pursued;
    if events != [] {
      PursuedRun(s, events[..|events| - 1], p, entry, q);
      PursuedStep(Run(s, events[..|events| - 1]), events[|events| - 1], p, entry, q);
    }
  }

  /**
   * Whatever the others do during a sweep: once p is to release the lock, every port or owner file that stood in the
   * directory when p listed it, of a process that was gone then, is absent or some other process's.
   */
  lemma SweepRemovesStale(s: System, during: seq<Event>, p: Pid, entry: Entry)
    requires Alive(s, p) && s.processes[p].pc == Holding
    requires entry in s.dir && !entry.Sweep? && entry != Owner(p) && !Alive(s, s.dir[entry])
    ensures var t := Run(Apply(s, ListEntries(p)), during);
            p in t.processes && t.processes[p].pc in {Releasing, Ready} ==>
              entry !in t.dir || t.dir[entry] != s.dir[entry]
  {
    hide Run;
    assert entry in s.dir.Keys;
    PursuedRun(Apply(s, ListEntries(p)), during, p, entry, s.dir[entry]);
  }

  /** What is left of a directory that process p has swept alone: no port or owner files of processes that are gone. */
  function Swept(s: System, p: Pid): Directory {
    map e | e in s.dir && (e.Sweep? || e == Owner(p) || Alive(s, s.dir[e])) :: s.dir[e]
  }

  /** Only the directory and p's own state differ. */
  predicate OnlyMoved(s: System, t: System, p: Pid, pc: Pc) {
    Alive(s, p) && t == s.(dir := t.dir, processes := s.processes[p := s.processes[p].(pc := pc)])
  }

  /** One entry is judged, and unlinked when it is stale. */
  lemma SweepEntry(r: System, before: seq<Event>, s: System, p: Pid, entries: set<Entry>, entry: Entry)
    returns (events: seq<Event>, t: System)
    requires Run(r, before) == s && Alive(s, p) && s.processes[p].pc == Sweeping(entries, {}) && entry in entries
    ensures Run(r, events) == t && OnlyMoved(s, t, p, Sweeping(entries - {entry}, {}))
    ensures t.dir == if entry in s.dir && !Alive(s, s.dir[entry]) then s.dir - {entry} else s.dir
  {
    hide Run, FlagStep, LifeStep;
    events, t := Extend(r, before, s, Judge(p, entry));
    if entry in s.dir && !Alive(s, s.dir[entry]) {
      assert {} + {entry} == {entry} && {entry} - {entry} == {};
      assert OnlyMoved(s, t, p, Sweeping(entries - {entry}, {entry}));
      events, t := Extend(r, events, t, Remove(p, entry));
    }
  }

  /** Judging the listed entries one by one, and unlinking those that are stale. */
  lemma {:induction false} SweepEntries(r: System, before: seq<Event>, s: System, p: Pid, entries: set<Entry>)
    returns (events: seq<Event>, t: System)
    requires Run(r, before) == s && Alive(s, p) && s.processes[p].pc == Sweeping(entries, {})
    ensures Run(r, events) == t && OnlyMoved(s, t, p, Sweeping({}, {}))
    ensures t.dir == SweptOf(s, entries)
    decreases entries
  {
    hide Run, Apply;
    if entries == {} {
      events, t := before, s;
    } else {
      var entry :| entry in entries;
      var u;
      events, u := SweepEntry(r, before, s, p, entries, entry);
      events, t := SweepEntries(r, events, u, p, entries - {entry});
      SweptOneFirst(s, u, entries, entry);
    }
  }

  lemma SweptOneFirst(s: System, u: System, entries: set<Entry>, entry: Entry)
    requires entry in entries && forall q :: Alive(u, q) == Alive(s, q)
    requires u.dir == if entry in s.dir && !Alive(s, s.dir[entry]) then s.dir - {entry} else s.dir
    ensures SweptOf(u, entries - {entry}) == SweptOf(s, entries)
  {
    hide Alive;
  }

  function SweptOf(s: System, entries: set<Entry>): Directory {
    map e | e in s.dir && (e in entries ==> Alive(s, s.dir[e])) :: s.dir[e]
  }

  /** The holder, when it is not interrupted, removes exactly the stale files and its own flag, and is ready. */
  lemma SweepAlone(s: System, p: Pid) returns (events: seq<Event>)
    requires Alive(s, p) && s.processes[p].pc == Holding
    ensures var t := Run(s, events);
            OnlyMoved(s, t, p, Ready) && t.dir == Swept(s, p) - {Sweep(s.processes[p].generation)}
  {
    var listed := set e | e in s.dir.Keys && !e.Sweep? && e != Owner(p);
    var t := Apply(s, ListEntries(p));
    assert OnlyMoved(s, t, p, Sweeping(listed, {})) && t.dir == s.dir;
    RunNothing(s);
    events, t := Extend(s, [], s, ListEntries(p));
    events, t := SweepEntries(s, events, t, p, listed);
    assert t.dir == Swept(s, p);
    events, t := FinishAndRelease(s, events, t, p);
  }

  lemma FinishAndRelease(r: System, before: seq<Event>, s: System, p: Pid) returns (events: seq<Event>, t: System)
    requires Run(r, before) == s && Alive(s, p) && s.processes[p].pc == Sweeping({}, {})
    ensures Run(r, events) == t && OnlyMoved(s, t, p, Ready)
    ensures t.dir == s.dir - {Sweep(s.processes[p].generation)}
  {
    hide Run, FlagStep, LifeStep;
    events, t := Extend(r, before, s, FinishSweep(p));
    events, t := Extend(r, events, t, Release(p));
  }

  // ----- the flags of others -----

  /** Without an owner file initialization fails; a generation that is taken leaves the sweep to another process. */
  lemma LinkingFlags(s: System, p: Pid, g: nat)
    requires Alive(s, p) && s.processes[p].pc == OwnerReady
    ensures var t := Apply(s, LinkFlag(p, g));
            if Owner(p) !in s.dir then t.dir == s.dir && OnlyMoved(s, t, p, Broken)
            else if Sweep(g) in s.dir then t.dir == s.dir && OnlyMoved(s, t, p, Ready)
            else t.dir == s.dir[Sweep(g) := p] && AtFlag(t, p, Flagged, g)
  {
  }

  predicate AtFlag(s: System, p: Pid, pc: Pc, g: nat) {
    Alive(s, p) && s.processes[p].pc == pc && s.processes[p].generation == g
  }

  /** Seeing the flag of a process that runs, p takes its own flag back and is ready without a sweep. */
  lemma YieldsToARunningSweeper(s: System, p: Pid, other: nat) returns (events: seq<Event>)
    requires Alive(s, p) && s.processes[p].pc.Scanning? && other in s.processes[p].pc.todo
    requires Sweep(other) in s.dir && Alive(s, s.dir[Sweep(other)]) && Sweep(s.processes[p].generation) in s.dir
    ensures var t := Run(s, events);
            OnlyMoved(s, t, p, Ready) && t.dir == s.dir - {Sweep(s.processes[p].generation)}
  {
    hide SweepStep, LifeStep;
    var t;
    RunNothing(s);
    events, t := Extend(s, [], s, CheckFlag(p, other));
    events, t := Extend(s, events, t, Yield(p));
  }

  /** One flag is checked, and unlinked when its process is gone. */
  lemma PassDeadFlag(r: System, before: seq<Event>, s: System, p: Pid, todo: set<nat>, g: nat)
    returns (events: seq<Event>, t: System)
    requires Run(r, before) == s && Alive(s, p) && s.processes[p].pc == Scanning(todo) && g in todo
    requires Sweep(g) in s.dir ==> !Alive(s, s.dir[Sweep(g)])
    ensures Run(r, events) == t && OnlyMoved(s, t, p, Scanning(todo - {g})) && t.dir == s.dir - {Sweep(g)}
  {
    hide Run, SweepStep, LifeStep;
    events, t := Extend(r, before, s, CheckFlag(p, g));
    if Sweep(g) in s.dir {
      events, t := Extend(r, events, t, RemoveFlag(p));
    }
  }

  /** The flags still to be checked are those of processes that are gone. */
  lemma {:induction false} PassDeadFlags(r: System, before: seq<Event>, s: System, p: Pid, todo: set<nat>)
    returns (events: seq<Event>, t: System)
    requires Run(r, before) == s && Alive(s, p) && s.processes[p].pc == Scanning(todo)
    requires forall g :: g in todo && Sweep(g) in s.dir ==> !Alive(s, s.dir[Sweep(g)])
    ensures Run(r, events) == t && OnlyMoved(s, t, p, Scanning({})) && t.dir == WithoutFlags(s.dir, todo)
    decreases todo
  {
    hide Run, Apply;
    if todo == {} {
      events, t := before, s;
    } else {
      var g :| g in todo;
      var u;
      events, u := PassDeadFlag(r, before, s, p, todo, g);
      events, t := PassDeadFlags(r, events, u, p, todo - {g});
      assert WithoutFlags(u.dir, todo - {g}) == WithoutFlags(s.dir, todo);
    }
  }

  function WithoutFlags(dir: Directory, flags: set<nat>): Directory {
    map e | e in dir && !(e.Sweep? && e.generation in flags) :: dir[e]
  }

  /** When all other flags were left by processes that are gone, p removes them and holds the lock. */
  lemma AcquireAlone(s: System, p: Pid, g: nat) returns (events: seq<Event>)
    requires Alive(s, p) && s.processes[p].pc == OwnerReady && Owner(p) in s.dir && Sweep(g) !in s.dir
    requires forall other :: Sweep(other) in s.dir ==> !Alive(s, s.dir[Sweep(other)])
    ensures var t := Run(s, events);
            && AtFlag(t, p, Holding, g)
            && t.dir == (map e | e in s.dir && !e.Sweep? :: s.dir[e])[Sweep(g) := p]
  {
    hide Apply, Run;
    RunNothing(s);
    var t, todo := s, FlagsIn(s.dir);
    events, t := AnnounceAlone(s, [], s, p, g);
    assert forall other :: Sweep(other) in t.dir && other in todo ==> Sweep(other) in s.dir;
    events, t := PassDeadFlags(s, events, t, p, todo);
    events, t := TakeLock(s, events, t, p);
    forall e | e in s.dir && e.Sweep? ensures e.generation in todo {
      assert e in s.dir.Keys;
    }
  }

  lemma RunNothing(s: System)
    ensures Run(s, []) == s
  {
  }

  lemma AnnounceAlone(r: System, before: seq<Event>, s: System, p: Pid, g: nat)
    returns (events: seq<Event>, t: System)
    requires Run(r, before) == s
    requires Alive(s, p) && s.processes[p].pc == OwnerReady && Owner(p) in s.dir && Sweep(g) !in s.dir
    ensures Run(r, events) == t && AtFlag(t, p, Scanning(FlagsIn(s.dir)), g) && g !in FlagsIn(s.dir)
    ensures t.dir == s.dir[Sweep(g) := p]
    ensures forall q :: Alive(t, q) == Alive(s, q)
  {
    hide Run, SweepStep, LifeStep;
    events, t := Extend(r, before, s, LinkFlag(p, g));
    assert t.dir == s.dir[Sweep(g) := p];
    FlagsWith(s.dir, g, p);
    events, t := Extend(r, events, t, ListFlags(p));
  }

  lemma FlagsWith(dir: Directory, g: nat, p: Pid)
    requires Sweep(g) !in dir
    ensures g !in FlagsIn(dir) && FlagsIn(dir[Sweep(g) := p]) - {g} == FlagsIn(dir)
  {
    var flagged := dir[Sweep(g) := p];
    forall other | other in FlagsIn(dir) ensures other in FlagsIn(flagged) {
      assert Sweep(other) in flagged.Keys;
    }
  }

  lemma TakeLock(r: System, before: seq<Event>, s: System, p: Pid) returns (events: seq<Event>, t: System)
    requires Run(r, before) == s && Alive(s, p) && s.processes[p].pc == Scanning({})
    ensures Run(r, events) == t && OnlyMoved(s, t, p, Holding) && t.dir == s.dir
  {
    hide Run, SweepStep, LifeStep;
    events, t := Extend(r, before, s, Acquire(p));
  }

  // ----- ports -----

  /** A process starts by writing its owner file; a crash leaves its files where they are. */
  lemma BootAndCrash(s: System, p: Pid)
    requires Alive(s, p)
    ensures s.processes[p].pc == Fresh ==>
              OnlyMoved(s, Apply(s, Boot(p)), p, OwnerReady) && Apply(s, Boot(p)).dir == s.dir[Owner(p) := p]
    ensures var t := Apply(s, Crash(p));
            !Alive(t, p) && t.dir == s.dir && forall q :: q != p ==> Alive(t, q) == Alive(s, q)
  {
  }

  /** A ready process with its owner file gets any port that nobody has, and no other. */
  lemma ClaimTakesAFreePort(s: System, p: Pid, n: nat)
    requires Alive(s, p) && s.processes[p].pc == Ready && Owner(p) in s.dir
    ensures var t := Apply(s, Claim(p, n));
            if Port(n) in s.dir then t == s
            else t.dir == s.dir[Port(n) := p] && Owns(t, p, n) && forall m :: Owns(s, p, m) ==> Owns(t, p, m)
  {
  }

  /** Every port or owner file with p's content is one that p's exit hook will unlink; none once p is gone for good. */
  predicate Accounted(s: System, p: Pid, e: Entry) {
    e in s.dir && s.dir[e] == p && !e.Sweep? ==>
      Alive(s, p) && if e.Port? then Reserves(s.processes[p], e.number) else e == Owner(p)
  }

  lemma OwnFlagStep(s: System, e: Event, p: Pid, entry: Entry)
    requires Accounted(s, p, entry) && Alive(s, p)
    ensures Accounted(FlagStep(s, p, e), p, entry)
  {
  }

  lemma OwnSweepStep(s: System, e: Event, p: Pid, entry: Entry)
    requires Accounted(s, p, entry) && Alive(s, p)
    ensures Accounted(SweepStep(s, p, e), p, entry)
  {
  }

  lemma OwnLifeStep(s: System, e: Event, p: Pid, entry: Entry)
    requires Accounted(s, p, entry) && Alive(s, p) && !e.Crash?
    ensures Accounted(LifeStep(s, p, e), p, entry)
  {
  }

  lemma AccountedStep(s: System, e: Event, p: Pid, entry: Entry)
    requires Accounted(s, p, entry) && e != Crash(p)
    ensures Accounted(Apply(s, e), p, entry)
  {
    hide FlagStep, SweepStep, LifeStep;
    if e.p != p && Alive(s, e.p) {
      StepWrites(s, e);
    } else if Alive(s, p) {
      OwnFlagStep(s, e, p, entry);
      OwnSweepStep(s, e, p, entry);
      if !e.Crash? {
        OwnLifeStep(s, e, p, entry);
      }
    }
  }

  lemma {:induction false} AccountedRun(s: System, events: seq<Event>, p: Pid, entry: Entry)
    requires Accounted(s, p, entry) && Crash(p) !in events
    ensures Accounted(Run(s, events), p, entry)
  {
    hide Apply, Accounted;
    if events != [] {
      var front, e := events[..|events| - 1], events[|events| - 1];
      assert e in events && forall x :: x in front ==> x in events;
      AccountedRun(s, front, p, entry);
      AccountedStep(Run(s, front), e, p, entry);
    }
  }

  /** A process that has ended without a crash has left no port and no owner file, whatever the others did. */
  lemma ExitLeavesNothing(s: System, events: seq<Event>, p: Pid, entry: Entry)
    requires Init(s) && p in s.processes && Crash(p) !in events
    ensures var t := Run(s, events);
            !Alive(t, p) && entry in t.dir && !entry.Sweep? ==> t.dir[entry] != p
  {
    hide Run;
    assert Starting(s, p);
    AccountedRun(s, events, p, entry);
  }

  /** The exit hook of a process that is not interrupted: its ports and its owner file go, nothing else. */
  lemma {:induction false} UnlinkPorts(r: System, before: seq<Event>, s: System, p: Pid, ports: set<nat>)
    returns (events: seq<Event>, t: System)
    requires Run(r, before) == s && Alive(s, p) && s.processes[p].pc == Exiting(ports)
    ensures Run(r, events) == t && OnlyMoved(s, t, p, Exiting({}))
    ensures t.dir == map e | e in s.dir && !(e.Port? && e.number in ports) :: s.dir[e]
    decreases ports
  {
    hide Run, SweepStep, FlagStep;
    if ports == {} {
      events, t := before, s;
    } else {
      var n :| n in ports;
      var u;
      events, u := Extend(r, before, s, ExitUnlink(p, n));
      assert OnlyMoved(s, u, p, Exiting(ports - {n}));
      events, t := UnlinkPorts(r, events, u, p, ports - {n});
    }
  }

  lemma ExitAlone(s: System, p: Pid) returns (events: seq<Event>)
    requires Alive(s, p) && !s.processes[p].pc.Exiting?
    ensures var t := Run(s, events); var ports := s.processes[p].claimed;
            && !Alive(t, p)
            && t.dir == map e | e in s.dir && e != Owner(p) && !(e.Port? && e.number in ports) :: s.dir[e]
  {
    hide Apply, Run;
    RunNothing(s);
    var t;
    events, t := HookStarts(s, [], s, p);
    events, t := UnlinkPorts(s, events, t, p, s.processes[p].claimed);
    events, t := HookEnds(s, events, t, p);
  }

  lemma HookStarts(r: System, before: seq<Event>, s: System, p: Pid) returns (events: seq<Event>, t: System)
    requires Run(r, before) == s && Alive(s, p) && !s.processes[p].pc.Exiting?
    ensures Run(r, events) == t && OnlyMoved(s, t, p, Exiting(s.processes[p].claimed)) && t.dir == s.dir
  {
    hide Run, SweepStep, FlagStep;
    events, t := Extend(r, before, s, BeginExit(p));
  }

  lemma HookEnds(r: System, before: seq<Event>, s: System, p: Pid) returns (events: seq<Event>, t: System)
    requires Run(r, before) == s && Alive(s, p) && s.processes[p].pc == Exiting({})
    ensures Run(r, events) == t && !Alive(t, p) && t.dir == s.dir - {Owner(p)}
  {
    hide Run, SweepStep, FlagStep;
    events, t := Extend(r, before, s, FinishExit(p));
  }
}
