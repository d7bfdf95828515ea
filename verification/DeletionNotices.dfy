/**
 * Durable delivery of space deletion notices: a table of notices with retry times, cleared or
 * rescheduled by retry passes that may hold rows read long ago. A fresh generation per enqueue
 * fences those passes off.
 */
module DeletionNotices {
  import opened Prelude

  datatype Key = Key(space: nat, service: nat)

  datatype Row = Row(generation: nat, attempts: nat, retryAt: int, expiresAt: int)

  type Table = map<Key, Row>

  // Times are in milliseconds.
  const MINUTE := 60_000
  const HOUR := 3_600_000
  const BATCH_SIZE := 5

  // ----- backoff -----

  type Random = r: real | 0.0 <= r < 1.0

  function Min(a: int, b: int): int {
    if a < b then a else b
  }

  function Pow2(n: nat): nat {
    if n == 0 then 1 else 2 * Pow2(n - 1)
  }

  /** The delay before the given attempt is repeated; the first attempt is number 1. */
  function Delay(attempt: nat): int
    requires attempt >= 1
  {
    Min(HOUR, MINUTE * Pow2(Min(attempt - 1, 6)))
  }

  function RetryTime(row: Row, now: int, random: Random): int {
    Min(row.expiresAt, now + (Delay(row.attempts + 1) as real * (0.5 + random / 2.0)).Floor)
  }

  function Rescheduled(row: Row, now: int, random: Random): Row {
    row.(attempts := row.attempts + 1, retryAt := RetryTime(row, now, random))
  }

  lemma DelayValues(attempt: nat)
    requires attempt >= 1
    ensures attempt <= 6 ==> Delay(attempt) == MINUTE * Pow2(attempt - 1)
    ensures attempt >= 7 ==> Delay(attempt) == HOUR
    ensures MINUTE <= Delay(attempt) <= HOUR && Delay(attempt) % 2 == 0
  {
    if attempt <= 6 {
      assert Pow2(0) == 1 && Pow2(1) == 2 && Pow2(2) == 4 && Pow2(3) == 8 && Pow2(4) == 16 && Pow2(5) == 32;
      assert attempt - 1 in {0, 1, 2, 3, 4, 5};
    } else {
      assert Pow2(2) == 4 && Pow2(4) == 16 && Pow2(6) == 64;
    }
  }

  /** The n-th reschedule lies between half the delay and the full delay, capped by the expiry. */
  lemma RetryTimeBounds(row: Row, now: int, random: Random)
    ensures var d := Delay(row.attempts + 1); var t := RetryTime(row, now, random);
            && Min(row.expiresAt, now + d / 2) <= t <= row.expiresAt
            && t < now + d
            && (t < row.expiresAt ==> now + d / 2 <= t)
            && (now < row.expiresAt ==> now < t)
  {
    var d := Delay(row.attempts + 1);
    DelayValues(row.attempts + 1);
    var half := d / 2;
    var jittered := d as real * (0.5 + random / 2.0);
    assert jittered == half as real + d as real * (random / 2.0);
    assert 0.0 <= d as real * (random / 2.0) < d as real * 0.5;
    assert half as real <= jittered < d as real;
  }

  /** The least time that `n` reschedules put between the first attempt and the next one. */
  function MinSpent(n: nat): nat {
    if n == 0 then 0 else (DelayValues(n); MinSpent(n - 1) + Delay(n) / 2)
  }

  lemma {:induction false} MinSpentClosedForm(n: nat)
    ensures n <= 6 ==> MinSpent(n) == MINUTE / 2 * (Pow2(n) - 1)
    ensures n >= 6 ==> MinSpent(n) == 63 * (MINUTE / 2) + (n - 6) * (HOUR / 2)
  {
    if n > 0 {
      MinSpentClosedForm(n - 1);
      DelayValues(n);
      if n == 6 {
        assert Pow2(2) == 4 && Pow2(4) == 16 && Pow2(6) == 64;
      }
    }
  }

  // ----- interleaved passes -----

  datatype Reason = Delivered | Refused | Expired | Gone

  /** What has happened, in order. A notice is judged before it is cleared. */
  datatype Record =
    | Enqueued(key: Key, generation: nat)
    | Judged(key: Key, generation: nat, reason: Reason)
    | Cleared(key: Key, generation: nat, reason: Reason)
    | Postponed(key: Key, generation: nat)

  datatype Birth = Birth(key: Key, enqueuedAt: int, expiresAt: int)

  datatype Held = Held(key: Key, row: Row)

  datatype Stage = Between | Checking | Delivering | Clearing(reason: Reason) | Rescheduling

  /** A retry pass: the rows it has read and not yet handled, and where it is with the first of them. */
  datatype Pass = Pass(batch: seq<Held>, stage: Stage)

  datatype System = System(
    table: Table,
    births: map<nat, Birth>,  // every generation ever enqueued
    now: int,
    passes: map<nat, Pass>,
    log: seq<Record>
  )

  datatype SpaceState = Deleted | Active | Missing | Paused
  datatype DeliveryResult = Accepted | PermanentlyRefused | Failed

  datatype Event =
    | Tick(elapsed: nat)
    | Enqueue(key: Key, generation: nat, expiresAt: int)
    | Fetch(pass: nat, asOf: int, batch: seq<Held>)   // the clock was read before the lease was renewed
    | Begin(pass: nat)
    | SpaceRead(pass: nat, state: SpaceState)
    | DeliveryDone(pass: nat, result: DeliveryResult)
    | Clear(pass: nat)
    | ClearFails(pass: nat)
    | Reschedule(pass: nat, random: Random)
    | Stop(pass: nat)   // aborted, out of lease time, failed or crashed

  /** At most `BATCH_SIZE` due rows, those due longest. */
  ghost predicate IsBatch(table: Table, now: int, batch: seq<Held>) {
    && |batch| <= BATCH_SIZE
    && (forall i :: 0 <= i < |batch| ==> batch[i].key in table && table[batch[i].key] == batch[i].row)
    && (forall i :: 0 <= i < |batch| ==> batch[i].row.retryAt <= now)
    && (forall i, j :: 0 <= i < j < |batch| ==> batch[i].key != batch[j].key)
    && (forall i, j :: 0 <= i < j < |batch| ==> batch[i].row.retryAt <= batch[j].row.retryAt)
    && (forall k :: k in table && table[k].retryAt <= now && Held(k, table[k]) !in batch ==>
          |batch| == BATCH_SIZE && batch[BATCH_SIZE - 1].row.retryAt <= table[k].retryAt)
  }

  predicate Matches(table: Table, h: Held) {
    h.key in table && table[h.key].generation == h.row.generation
  }

  function ClearRow(table: Table, h: Held): Table {
    if Matches(table, h) then table - {h.key} else table
  }

  function RescheduleRow(table: Table, h: Held, now: int, random: Random): Table {
    if Matches(table, h) then
      var r := table[h.key];
      table[h.key := r.(attempts := h.row.attempts + 1, retryAt := RetryTime(h.row, now, random))]
    else table
  }

  function Put(s: System, p: nat, pass: Pass): System {
    s.(passes := s.passes[p := pass])
  }

  function Next(pass: Pass): Pass
    requires pass.batch != []
  {
    Pass(pass.batch[1..], Between)
  }

  function Judge(s: System, p: nat, reason: Reason): System
    requires p in s.passes && s.passes[p].batch != []
  {
    var h := s.passes[p].batch[0];
    Put(s.(log := s.log + [Judged(h.key, h.row.generation, reason)]), p, s.passes[p].(stage := Clearing(reason)))
  }

  /** The steps of `retryOne` on the first row of the batch. */
  function RowStep(s: System, e: Event): System
    requires e.Begin? || e.SpaceRead? || e.DeliveryDone? || e.Clear? || e.ClearFails? || e.Reschedule?
    requires e.pass in s.passes && s.passes[e.pass].batch != []
  {
    var p, pass := e.pass, s.passes[e.pass];
    var h := pass.batch[0];
    match e
    case Begin(_) =>
      if pass.stage != Between then s
      else if h.row.expiresAt <= s.now then Judge(s, p, Expired)
      else Put(s, p, pass.(stage := Checking))
    case SpaceRead(_, state) =>
      if pass.stage != Checking then s
      else if state == Active || state == Missing then Judge(s, p, Gone)
      else Put(s, p, pass.(stage := if state == Paused then Rescheduling else Delivering))
    case DeliveryDone(_, result) =>
      if pass.stage != Delivering then s
      else if result == Accepted then Judge(s, p, Delivered)
      else if result == PermanentlyRefused then Judge(s, p, Refused)
      else Put(s, p, pass.(stage := Rescheduling))
    case Clear(_) =>
      if !pass.stage.Clearing? then s
      else
        var log := if Matches(s.table, h) then s.log + [Cleared(h.key, h.row.generation, pass.stage.reason)] else s.log;
        Put(s.(table := ClearRow(s.table, h), log := log), p, Next(pass))
    case ClearFails(_) =>
      // inside the try block of a delivery the error leads to a reschedule, elsewhere it ends the pass
      if pass.stage == Clearing(Delivered) then Put(s, p, pass.(stage := Rescheduling))
      else if pass.stage.Clearing? then Put(s, p, Pass([], Between))
      else s
    case Reschedule(_, random) =>
      if pass.stage != Rescheduling then s
      else
        var log := if Matches(s.table, h) then s.log + [Postponed(h.key, h.row.generation)] else s.log;
        Put(s.(table := RescheduleRow(s.table, h, s.now, random), log := log), p, Next(pass))
  }

  ghost function Apply(s: System, e: Event): System {
    match e
    case Tick(elapsed) => s.(now := s.now + elapsed)
    case Enqueue(key, generation, expiresAt) =>
      if generation in s.births || expiresAt <= s.now then s
      else
        s.(table := s.table[key := Row(generation, 0, s.now, expiresAt)],
           births := s.births[generation := Birth(key, s.now, expiresAt)],
           log := s.log + [Enqueued(key, generation)])
    case Fetch(p, asOf, batch) =>
      if p in s.passes && s.passes[p].batch == [] && asOf <= s.now && IsBatch(s.table, asOf, batch)
      then Put(s, p, Pass(batch, Between)) else s
    case Stop(p) => if p in s.passes then Put(s, p, Pass([], Between)) else s
    case _ => if e.pass in s.passes && s.passes[e.pass].batch != [] then RowStep(s, e) else s
  }

  ghost function Run(s: System, events: seq<Event>): System {
    if events == [] then s else Apply(Run(s, events[..|events| - 1]), events[|events| - 1])
  }

  ghost predicate Init(s: System) {
    && s.table == map[] && s.births == map[] && s.log == []
    && forall p :: p in s.passes ==> s.passes[p] == Pass([], Between)
  }

  // ----- invariants -----

  /** The row of a generation, and how its retry time relates to the time it was enqueued. */
  ghost predicate RowOk(s: System, key: Key, row: Row) {
    && row.generation in s.births
    && var b := s.births[row.generation];
       && b.key == key && b.expiresAt == row.expiresAt
       && row.retryAt <= row.expiresAt
       && (row.retryAt == row.expiresAt || b.enqueuedAt + MinSpent(row.attempts) <= row.retryAt)
       && (row.attempts > 0 ==> b.enqueuedAt + MinSpent(row.attempts - 1) < row.expiresAt)
  }

  /** A row that was not expired when its handling began had not been capped by its expiry. */
  ghost predicate PassOk(s: System, pass: Pass) {
    && (forall i :: 0 <= i < |pass.batch| ==> RowOk(s, pass.batch[i].key, pass.batch[i].row)
                                              && pass.batch[i].row.retryAt <= s.now)
    && (pass.batch == [] ==> pass.stage == Between)
    && (pass.batch != [] && pass.stage != Between && pass.stage !in {Clearing(Expired), Clearing(Gone)} ==>
          pass.batch[0].row.retryAt < pass.batch[0].row.expiresAt)
    && (pass.stage.Clearing? ==>
          var h := pass.batch[0]; Judged(h.key, h.row.generation, pass.stage.reason) in s.log)
  }

  ghost predicate IsCurrent(s: System, g: nat)
    requires g in s.births
  {
    s.births[g].key in s.table && s.table[s.births[g].key].generation == g
  }

  ghost predicate WasCleared(s: System, g: nat)
    requires g in s.births
  {
    exists reason :: Cleared(s.births[g].key, g, reason) in s.log
  }

  /** Enqueued, and the same notice enqueued again later. */
  ghost predicate WasReplaced(s: System, g: nat)
    requires g in s.births
  {
    exists i, j :: 0 <= i < j < |s.log| && s.log[i] == Enqueued(s.births[g].key, g)
                   && s.log[j].Enqueued? && s.log[j].key == s.births[g].key
  }

  /** Nothing is cleared without a judgement on the same generation before. */
  ghost predicate JudgedFirst(log: seq<Record>) {
    forall i :: 0 <= i < |log| && log[i].Cleared? ==> Judged(log[i].key, log[i].generation, log[i].reason) in log[..i]
  }

  ghost predicate LogMatchesBirths(log: seq<Record>, births: map<nat, Birth>) {
    && (forall r :: r in log ==> r.generation in births && births[r.generation].key == r.key)
    && (forall g :: g in births ==> Enqueued(births[g].key, g) in log)
  }

  ghost predicate Accounted(s: System) {
    && (forall g :: g in s.births ==> IsCurrent(s, g) || WasCleared(s, g) || WasReplaced(s, g))
    && (forall g :: g in s.births && WasCleared(s, g) ==> !IsCurrent(s, g))
  }

  ghost predicate Inv(s: System) {
    && (forall k :: k in s.table ==> RowOk(s, k, s.table[k]))
    && (forall p :: p in s.passes ==> PassOk(s, s.passes[p]))
    && JudgedFirst(s.log) && LogMatchesBirths(s.log, s.births) && Accounted(s)
  }

  // ----- every step keeps them -----

  /** Births, log and clock only grow. */
  ghost predicate Grows(s: System, s': System) {
    && (forall g :: g in s.births ==> g in s'.births && s'.births[g] == s.births[g])
    && s.log <= s'.log && s.now <= s'.now
  }

  lemma RecordStays(log: seq<Record>, log': seq<Record>, r: Record)
    requires log <= log' && r in log
    ensures r in log'
  {
    var i :| 0 <= i < |log| && log[i] == r;
    assert log'[i] == r;
  }

  lemma PassFrame(s: System, s': System, pass: Pass)
    requires PassOk(s, pass) && Grows(s, s')
    ensures PassOk(s', pass)
  {
    if pass.stage.Clearing? {
      var h := pass.batch[0];
      RecordStays(s.log, s'.log, Judged(h.key, h.row.generation, pass.stage.reason));
    }
    forall i | 0 <= i < |pass.batch| ensures RowOk(s', pass.batch[i].key, pass.batch[i].row) {
      assert RowOk(s, pass.batch[i].key, pass.batch[i].row);
    }
  }

  lemma JudgedFirstSnoc(log: seq<Record>, r: Record)
    requires JudgedFirst(log)
    requires r.Cleared? ==> Judged(r.key, r.generation, r.reason) in log
    ensures JudgedFirst(log + [r])
  {
    var log' := log + [r];
    forall i | 0 <= i < |log'| && log'[i].Cleared?
      ensures Judged(log'[i].key, log'[i].generation, log'[i].reason) in log'[..i]
    {
      assert log'[..i] == log[..i];
      assert i == |log| ==> log[..i] == log;
    }
  }

  lemma PastStays(s: System, s': System, g: nat)
    requires g in s.births && Grows(s, s')
    ensures WasCleared(s, g) ==> WasCleared(s', g)
    ensures WasReplaced(s, g) ==> WasReplaced(s', g)
  {
    if WasCleared(s, g) {
      var reason :| Cleared(s.births[g].key, g, reason) in s.log;
      RecordStays(s.log, s'.log, Cleared(s.births[g].key, g, reason));
    }
  }

  lemma NotClearedBefore(s: System, s': System, g: nat)
    requires g in s'.births && WasCleared(s', g) && Grows(s, s') && LogMatchesBirths(s.log, s.births)
    requires forall r :: r in s'.log && r.Cleared? ==> r in s.log
    ensures g in s.births && WasCleared(s, g)
  {
    var reason :| Cleared(s'.births[g].key, g, reason) in s'.log;
    assert Cleared(s'.births[g].key, g, reason) in s.log;
  }

  /** A step of a pass that leaves the table's generations alone. */
  lemma AccountedFrame(s: System, s': System)
    requires LogMatchesBirths(s.log, s.births) && Accounted(s) && Grows(s, s') && s'.births == s.births
    requires s'.table.Keys == s.table.Keys
    requires forall k :: k in s.table ==> s'.table[k].generation == s.table[k].generation
    requires forall r :: r in s'.log && r.Cleared? ==> r in s.log
    ensures Accounted(s')
  {
    forall g | g in s'.births
      ensures IsCurrent(s', g) || WasCleared(s', g) || WasReplaced(s', g)
      ensures WasCleared(s', g) ==> !IsCurrent(s', g)
    {
      PastStays(s, s', g);
      if WasCleared(s', g) {
        NotClearedBefore(s, s', g);
      }
    }
  }

  lemma LogMatchesSnoc(s: System, s': System, r: Record)
    requires LogMatchesBirths(s.log, s.births) && s'.births == s.births && s'.log == s.log + [r]
    requires r.generation in s.births && s.births[r.generation].key == r.key
    ensures LogMatchesBirths(s'.log, s'.births)
  {
    forall g | g in s'.births ensures Enqueued(s'.births[g].key, g) in s'.log {
      RecordStays(s.log, s'.log, Enqueued(s.births[g].key, g));
    }
  }

  /** Everything about a step that logs at most one record and changes one pass, apart from the table. */
  lemma Conclude(s: System, s': System, p: nat)
    requires Inv(s) && p in s.passes && Grows(s, s') && s'.births == s.births && s'.passes.Keys == s.passes.Keys
    requires forall q :: q in s.passes && q != p ==> s'.passes[q] == s.passes[q]
    requires PassOk(s', s'.passes[p])
    requires forall k :: k in s'.table ==> RowOk(s', k, s'.table[k])
    requires Accounted(s') && JudgedFirst(s'.log) && LogMatchesBirths(s'.log, s'.births)
    ensures Inv(s')
  {
    forall q | q in s'.passes ensures PassOk(s', s'.passes[q]) {
      if q != p {
        PassFrame(s, s', s.passes[q]);
      }
    }
  }

  lemma RowFrame(s: System, s': System, key: Key, row: Row)
    requires RowOk(s, key, row) && Grows(s, s')
    ensures RowOk(s', key, row)
  {
    hide MinSpent;
  }

  /** What the invariant says of the row a pass is working on. */
  lemma HeldOk(s: System, p: nat)
    requires Inv(s) && p in s.passes && s.passes[p].batch != []
    ensures var h := s.passes[p].batch[0];
            && RowOk(s, h.key, h.row)
            && h.row.generation in s.births && s.births[h.row.generation].key == h.key
            && h.row.retryAt <= s.now
            && (s.passes[p].stage.Clearing? ==> Judged(h.key, h.row.generation, s.passes[p].stage.reason) in s.log)
            && (s.passes[p].stage == Rescheduling ==> h.row.retryAt < h.row.expiresAt)
  {
  }

  lemma JudgedPassOk(s: System, p: nat, reason: Reason)
    requires p in s.passes && PassOk(s, s.passes[p]) && s.passes[p].batch != []
    requires reason != Expired && reason != Gone ==> s.passes[p].stage == Delivering
    ensures PassOk(Judge(s, p, reason), s.passes[p].(stage := Clearing(reason)))
  {
    hide MinSpent;
    var s', pass := Judge(s, p, reason), s.passes[p];
    assert s'.log[|s.log|] == Judged(pass.batch[0].key, pass.batch[0].row.generation, reason);
    forall i | 0 <= i < |pass.batch| ensures RowOk(s', pass.batch[i].key, pass.batch[i].row) {
      RowFrame(s, s', pass.batch[i].key, pass.batch[i].row);
    }
  }

  lemma JudgeOk(s: System, p: nat, reason: Reason)
    requires Inv(s) && p in s.passes && s.passes[p].batch != []
    requires reason != Expired && reason != Gone ==> s.passes[p].stage == Delivering
    ensures Inv(Judge(s, p, reason))
  {
    hide MinSpent, RowOk, PassOk, Accounted, LogMatchesBirths, JudgedFirst;
    var s', h := Judge(s, p, reason), s.passes[p].batch[0];
    var r := Judged(h.key, h.row.generation, reason);
    HeldOk(s, p);
    JudgedFirstSnoc(s.log, r);
    LogMatchesSnoc(s, s', r);
    AccountedFrame(s, s');
    JudgedPassOk(s, p, reason);
    forall k | k in s'.table ensures RowOk(s', k, s'.table[k]) {
      RowFrame(s, s', k, s.table[k]);
    }
    Conclude(s, s', p);
  }

  /** A step that only moves a pass along. */
  lemma MoveOk(s: System, p: nat, pass: Pass)
    requires Inv(s) && p in s.passes && PassOk(s, pass)
    ensures Inv(Put(s, p, pass))
  {
    hide RowOk, PassOk, Accounted, LogMatchesBirths, JudgedFirst;
    var s' := Put(s, p, pass);
    AccountedFrame(s, s');
    forall k | k in s'.table ensures RowOk(s', k, s'.table[k]) {
      RowFrame(s, s', k, s.table[k]);
    }
    PassFrame(s, s', pass);
    Conclude(s, s', p);
  }

  lemma NextOk(s: System, s': System, pass: Pass)
    requires PassOk(s, pass) && pass.batch != [] && Grows(s, s')
    ensures PassOk(s', Next(pass))
  {
    forall i | 0 <= i < |pass.batch| - 1 ensures RowOk(s', Next(pass).batch[i].key, Next(pass).batch[i].row) {
      assert Next(pass).batch[i] == pass.batch[i + 1];
      assert RowOk(s, pass.batch[i + 1].key, pass.batch[i + 1].row);
    }
  }

  lemma ClearAccounted(s: System, s': System, h: Held, r: Record)
    requires LogMatchesBirths(s.log, s.births) && Accounted(s) && RowOk(s, h.key, h.row) && Matches(s.table, h)
    requires r.Cleared? && r.key == h.key && r.generation == h.row.generation
    requires s'.table == s.table - {h.key} && s'.log == s.log + [r] && s'.births == s.births && s'.now == s.now
    ensures Accounted(s')
  {
    hide MinSpent;
    var g := h.row.generation;
    assert s'.log[|s.log|] == r;
    forall o | o in s'.births
      ensures IsCurrent(s', o) || WasCleared(s', o) || WasReplaced(s', o)
      ensures WasCleared(s', o) ==> !IsCurrent(s', o)
    {
      PastStays(s, s', o);
      if o == g {
        assert Cleared(s'.births[o].key, o, r.reason) in s'.log;
      } else if WasCleared(s', o) {
        var reason :| Cleared(s'.births[o].key, o, reason) in s'.log;
        assert Cleared(s'.births[o].key, o, reason) in s.log;
      }
    }
  }

  lemma ClearOk(s: System, p: nat)
    requires Inv(s) && p in s.passes && s.passes[p].batch != [] && s.passes[p].stage.Clearing?
    ensures Inv(RowStep(s, Clear(p)))
  {
    hide MinSpent, RowOk, PassOk, Accounted, LogMatchesBirths, JudgedFirst;
    var s', pass := RowStep(s, Clear(p)), s.passes[p];
    var h := pass.batch[0];
    HeldOk(s, p);
    NextOk(s, s', pass);
    if Matches(s.table, h) {
      var r := Cleared(h.key, h.row.generation, pass.stage.reason);
      JudgedFirstSnoc(s.log, r);
      LogMatchesSnoc(s, s', r);
      ClearAccounted(s, s', h, r);
    } else {
      AccountedFrame(s, s');
    }
    forall k | k in s'.table ensures RowOk(s', k, s'.table[k]) {
      RowFrame(s, s', k, s.table[k]);
    }
    Conclude(s, s', p);
  }

  /** A row rescheduled from a copy of the same generation keeps its relation to the time it was enqueued. */
  lemma RescheduledRowOk(s: System, h: Held, random: Random)
    requires RowOk(s, h.key, h.row) && h.row.retryAt <= s.now && h.row.retryAt < h.row.expiresAt
    ensures RowOk(s, h.key, Rescheduled(h.row, s.now, random))
  {
    RetryTimeBounds(h.row, s.now, random);
    assert MinSpent(h.row.attempts + 1) == MinSpent(h.row.attempts) + Delay(h.row.attempts + 1) / 2;
  }

  /** A held copy and the stored row of the same generation have the same expiry. */
  lemma SameGeneration(s: System, h: Held)
    requires RowOk(s, h.key, h.row) && Matches(s.table, h) && RowOk(s, h.key, s.table[h.key])
    ensures s.table[h.key].expiresAt == h.row.expiresAt
  {
  }

  lemma RescheduleOk(s: System, p: nat, random: Random)
    requires Inv(s) && p in s.passes && s.passes[p].batch != [] && s.passes[p].stage == Rescheduling
    ensures Inv(RowStep(s, Reschedule(p, random)))
  {
    hide MinSpent, RetryTime, RowOk, PassOk, Accounted, LogMatchesBirths, JudgedFirst;
    var s', pass := RowStep(s, Reschedule(p, random)), s.passes[p];
    var h := pass.batch[0];
    HeldOk(s, p);
    NextOk(s, s', pass);
    RescheduledRowOk(s, h, random);
    if Matches(s.table, h) {
      var r := Postponed(h.key, h.row.generation);
      JudgedFirstSnoc(s.log, r);
      LogMatchesSnoc(s, s', r);
      SameGeneration(s, h);
      assert s'.table[h.key] == Rescheduled(h.row, s.now, random);
    }
    AccountedFrame(s, s');
    forall k | k in s'.table ensures RowOk(s', k, s'.table[k]) {
      RowFrame(s, s', k, if k == h.key && Matches(s.table, h) then Rescheduled(h.row, s.now, random) else s.table[k]);
    }
    Conclude(s, s', p);
  }

  /** Moving on within a row, or giving the batch up, respects what is known of the pass. */
  lemma MovedPassOk(s: System, p: nat, pass: Pass, stage: Stage)
    requires PassOk(s, pass) && pass.batch != [] && !stage.Clearing?
    requires pass.stage == Between ==> s.now < pass.batch[0].row.expiresAt
    requires pass.stage !in {Clearing(Expired), Clearing(Gone)}
    ensures PassOk(s, pass.(stage := stage))
  {
    hide RowOk;
  }

  lemma RowStepOk(s: System, e: Event)
    requires e.Begin? || e.SpaceRead? || e.DeliveryDone? || e.Clear? || e.ClearFails? || e.Reschedule?
    requires Inv(s) && e.pass in s.passes && s.passes[e.pass].batch != []
    ensures Inv(RowStep(s, e))
  {
    hide RowOk, PassOk, Accounted, LogMatchesBirths, JudgedFirst;
    var p, pass := e.pass, s.passes[e.pass];
    var s' := RowStep(s, e);
    if e.Clear? && pass.stage.Clearing? {
      ClearOk(s, p);
    } else if e.Reschedule? && pass.stage == Rescheduling {
      RescheduleOk(s, p, e.random);
    } else if s'.passes[p].stage.Clearing? && s' != s {
      JudgeOk(s, p, s'.passes[p].stage.reason);
    } else if s' != s {
      if s'.passes[p] == Pass([], Between) {
        IdlePassOk(s);
      } else {
        MovedPassOk(s, p, pass, s'.passes[p].stage);
      }
      MoveOk(s, p, s'.passes[p]);
    }
  }

  lemma IdlePassOk(s: System)
    ensures PassOk(s, Pass([], Between))
  {
  }

  /** Enqueueing replaces the generation that was current for the key. */
  lemma ReplacedNow(s: System, key: Key, g: nat, o: nat)
    requires o in s.births && s.births[o].key == key && s.log != [] && s.log[|s.log| - 1] == Enqueued(key, g)
    requires Enqueued(key, o) in s.log[..|s.log| - 1]
    ensures WasReplaced(s, o)
  {
    var i :| 0 <= i < |s.log| - 1 && s.log[i] == Enqueued(key, o);
  }

  lemma OlderAccounted(s: System, key: Key, g: nat, expiresAt: int, o: nat)
    requires LogMatchesBirths(s.log, s.births) && Accounted(s) && g !in s.births && s.now < expiresAt && o in s.births
    ensures var s' := Apply(s, Enqueue(key, g, expiresAt));
            && (IsCurrent(s', o) || WasCleared(s', o) || WasReplaced(s', o))
            && (WasCleared(s', o) ==> !IsCurrent(s', o))
  {
    hide WasCleared, WasReplaced;
    var s' := Apply(s, Enqueue(key, g, expiresAt));
    assert s'.log[..|s.log|] == s.log && s'.log[|s.log|] == Enqueued(key, g);
    PastStays(s, s', o);
    if s.births[o].key == key {
      ReplacedNow(s', key, g, o);
    }
    if WasCleared(s', o) {
      NotClearedBefore(s, s', o);
    }
  }

  lemma EnqueueAccounted(s: System, key: Key, g: nat, expiresAt: int)
    requires LogMatchesBirths(s.log, s.births) && Accounted(s) && g !in s.births && s.now < expiresAt
    ensures var s' := Apply(s, Enqueue(key, g, expiresAt)); LogMatchesBirths(s'.log, s'.births) && Accounted(s')
  {
    hide WasCleared, WasReplaced;
    var s' := Apply(s, Enqueue(key, g, expiresAt));
    assert s'.log[|s.log|] == Enqueued(key, g);
    forall o | o in s.births ensures Enqueued(s.births[o].key, o) in s'.log {
      RecordStays(s.log, s'.log, Enqueued(s.births[o].key, o));
    }
    forall o | o in s'.births
      ensures IsCurrent(s', o) || WasCleared(s', o) || WasReplaced(s', o)
      ensures WasCleared(s', o) ==> !IsCurrent(s', o)
    {
      if o != g {
        OlderAccounted(s, key, g, expiresAt, o);
      } else if WasCleared(s', g) {
        NotClearedBefore(s, s', g);
      }
    }
  }

  lemma EnqueueOk(s: System, key: Key, g: nat, expiresAt: int)
    requires Inv(s) && g !in s.births && s.now < expiresAt
    ensures Inv(Apply(s, Enqueue(key, g, expiresAt)))
  {
    hide PassOk, Accounted, LogMatchesBirths, JudgedFirst;
    var s' := Apply(s, Enqueue(key, g, expiresAt));
    JudgedFirstSnoc(s.log, Enqueued(key, g));
    EnqueueAccounted(s, key, g, expiresAt);
    forall k | k in s'.table ensures RowOk(s', k, s'.table[k]) {
      if k != key {
        RowFrame(s, s', k, s.table[k]);
      }
    }
    forall q | q in s'.passes ensures PassOk(s', s'.passes[q]) {
      PassFrame(s, s', s.passes[q]);
    }
  }

  lemma FetchOk(s: System, p: nat, asOf: int, batch: seq<Held>)
    requires Inv(s) && p in s.passes && asOf <= s.now && IsBatch(s.table, asOf, batch)
    ensures PassOk(s, Pass(batch, Between))
  {
    forall i | 0 <= i < |batch| ensures RowOk(s, batch[i].key, batch[i].row) {
      assert RowOk(s, batch[i].key, s.table[batch[i].key]);
    }
  }

  lemma ApplyOk(s: System, e: Event)
    requires Inv(s)
    ensures Inv(Apply(s, e))
  {
    hide RowOk, PassOk, Accounted, LogMatchesBirths, JudgedFirst, IsBatch;
    var s' := Apply(s, e);
    match e
    case Tick(_) =>
      AccountedFrame(s, s');
      forall k | k in s'.table ensures RowOk(s', k, s'.table[k]) {
        RowFrame(s, s', k, s.table[k]);
      }
      forall q | q in s'.passes ensures PassOk(s', s'.passes[q]) {
        PassFrame(s, s', s.passes[q]);
      }
    case Enqueue(key, g, expiresAt) =>
      if g !in s.births && s.now < expiresAt {
        EnqueueOk(s, key, g, expiresAt);
      }
    case Fetch(p, asOf, batch) =>
      if s' != s {
        FetchOk(s, p, asOf, batch);
        MoveOk(s, p, Pass(batch, Between));
      }
    case Stop(p) =>
      if p in s.passes {
        IdlePassOk(s);
        MoveOk(s, p, Pass([], Between));
      }
    case _ =>
      if e.pass in s.passes && s.passes[e.pass].batch != [] {
        RowStepOk(s, e);
      }
  }

  lemma {:induction false} RunOk(s: System, events: seq<Event>)
    requires Init(s)
    ensures Inv(Run(s, events))
  {
    hide Apply;
    if events != [] {
      RunOk(s, events[..|events| - 1]);
      ApplyOk(Run(s, events[..|events| - 1]), events[|events| - 1]);
    }
  }

  // ----- main results on interleaved passes -----

  /** How one step may change the row of a key, when the pass involved holds the row `h`. */
  ghost predicate FencedChange(s: System, s': System, e: Event, key: Key)
    requires key in s.table
  {
    var row := s.table[key];
    || (key in s'.table && s'.table[key] == row)
    || (e.Enqueue? && e.key == key && key in s'.table && s'.table[key].generation == e.generation
        && e.generation !in s.births)
    || ((e.Reschedule? || e.Clear?) && e.pass in s.passes && s.passes[e.pass].batch != []
        && var h := s.passes[e.pass].batch[0];
           && h.key == key && h.row.generation == row.generation
           && (e.Reschedule? ==>
                 key in s'.table && s'.table[key].generation == row.generation
                 && s'.table[key].expiresAt == row.expiresAt && s'.table[key].attempts == h.row.attempts + 1)
           && (e.Clear? ==>
                 key !in s'.table && s.passes[e.pass].stage.Clearing?
                 && Judged(key, row.generation, s.passes[e.pass].stage.reason) in s.log))
  }

  /** Only an enqueue, or a pass that read the very generation in the table, changes or removes a row. */
  lemma StaleRowsAreFencedOff(s: System, events: seq<Event>, e: Event, key: Key)
    requires Init(s) && key in Run(s, events).table
    ensures FencedChange(Run(s, events), Apply(Run(s, events), e), e, key)
  {
    hide Run;
    RunOk(s, events);
    StepIsFenced(Run(s, events), e, key);
  }

  lemma StepIsFenced(s: System, e: Event, key: Key)
    requires Inv(s) && key in s.table
    ensures FencedChange(s, Apply(s, e), e, key)
  {
    hide RowOk, PassOk, Accounted, LogMatchesBirths, JudgedFirst, IsBatch;
    hide RetryTime;
    if (e.Clear? || e.Reschedule?) && e.pass in s.passes && s.passes[e.pass].batch != [] {
      HeldOk(s, e.pass);
    }
  }

  /**
   * Every enqueued notice is still in the table, or was cleared, or was replaced by a later enqueue of the same
   * notice; a cleared one is gone for good.
   */
  lemma NoticesAreConserved(s: System, events: seq<Event>, g: nat)
    requires Init(s) && g in Run(s, events).births
    ensures var t := Run(s, events);
            && (IsCurrent(t, g) || WasCleared(t, g) || WasReplaced(t, g))
            && !(WasCleared(t, g) && IsCurrent(t, g))
  {
    hide Run, PassOk, RowOk;
    RunOk(s, events);
  }

  /** A notice is cleared only after its own generation was delivered, refused or expired, or its space gone. */
  lemma ClearedWasJudged(s: System, events: seq<Event>, i: nat)
    requires Init(s) && i < |Run(s, events).log| && Run(s, events).log[i].Cleared?
    ensures var log := Run(s, events).log;
            Judged(log[i].key, log[i].generation, log[i].reason) in log[..i]
  {
    hide Run, PassOk, RowOk;
    RunOk(s, events);
  }

  /**
   * Whatever the interleaving, a stored row never waits beyond its expiry, and the attempts it counts fit into the
   * lifetime of the registration.
   */
  lemma RetriesEndWithTheRegistration(s: System, events: seq<Event>, key: Key)
    requires Init(s) && key in Run(s, events).table
    ensures var t := Run(s, events); var row := t.table[key];
            && row.retryAt <= row.expiresAt
            && row.generation in t.births
            && var lifetime := row.expiresAt - t.births[row.generation].enqueuedAt;
               && (row.attempts > 0 ==> MinSpent(row.attempts - 1) < lifetime)
               && (row.attempts > 6 ==> 63 * (MINUTE / 2) + (row.attempts - 7) * (HOUR / 2) < lifetime)
  {
    hide Run, PassOk, Accounted, LogMatchesBirths, JudgedFirst;
    RunOk(s, events);
    var row := Run(s, events).table[key];
    assert RowOk(Run(s, events), key, row);
    if row.attempts > 0 {
      MinSpentClosedForm(row.attempts - 1);
    }
  }

  // ----- any clock -----

  /** An event after the clock was read as any number whatever, earlier ones included. */
  datatype Step = Step(now: int, event: Event)

  ghost function RunAnyClock(s: System, steps: seq<Step>): System {
    if steps == [] then s
    else
      var last := steps[|steps| - 1];
      Apply(RunAnyClock(s, steps[..|steps| - 1]).(now := last.now), last.event)
  }

  /** A row of a generation has its expiry and does not wait beyond it. */
  ghost predicate WithinExpiry(s: System, key: Key, row: Row) {
    && row.generation in s.births && s.births[row.generation].key == key
    && s.births[row.generation].expiresAt == row.expiresAt && row.retryAt <= row.expiresAt
  }

  ghost predicate AllWithinExpiry(s: System) {
    && (forall k :: k in s.table ==> WithinExpiry(s, k, s.table[k]))
    && (forall p, h :: p in s.passes && h in s.passes[p].batch ==> WithinExpiry(s, h.key, h.row))
  }

  lemma RowStepWithin(s: System, e: Event)
    requires e.Begin? || e.SpaceRead? || e.DeliveryDone? || e.Clear? || e.ClearFails? || e.Reschedule?
    requires AllWithinExpiry(s) && e.pass in s.passes && s.passes[e.pass].batch != []
    ensures AllWithinExpiry(RowStep(s, e))
  {
    hide Delay;
    var h := s.passes[e.pass].batch[0];
    assert WithinExpiry(s, h.key, h.row);
  }

  lemma ApplyWithin(s: System, e: Event)
    requires AllWithinExpiry(s)
    ensures AllWithinExpiry(Apply(s, e))
  {
    hide RowStep;
    if e.Fetch? {
      forall h | h in e.batch && IsBatch(s.table, e.asOf, e.batch) ensures WithinExpiry(s, h.key, h.row) {
        var i :| 0 <= i < |e.batch| && e.batch[i] == h;
      }
    } else if !e.Tick? && !e.Enqueue? && !e.Stop? && e.pass in s.passes && s.passes[e.pass].batch != [] {
      RowStepWithin(s, e);
    }
  }

  /** Whatever the clock does, backward readings included, no row ever waits beyond its expiry. */
  lemma {:induction false} NoRowOutlivesItsExpiry(s: System, steps: seq<Step>)
    requires Init(s)
    ensures AllWithinExpiry(RunAnyClock(s, steps))
  {
    hide Apply;
    if steps != [] {
      var last := steps[|steps| - 1];
      NoRowOutlivesItsExpiry(s, steps[..|steps| - 1]);
      ClockIsFree(RunAnyClock(s, steps[..|steps| - 1]), last.now);
      ApplyWithin(RunAnyClock(s, steps[..|steps| - 1]).(now := last.now), last.event);
    }
  }

  lemma ClockIsFree(s: System, now: int)
    requires AllWithinExpiry(s)
    ensures AllWithinExpiry(s.(now := now))
  {
    forall k | k in s.table ensures WithinExpiry(s.(now := now), k, s.table[k]) {
      assert WithinExpiry(s, k, s.table[k]);
    }
    forall p, h | p in s.passes && h in s.passes[p].batch ensures WithinExpiry(s.(now := now), h.key, h.row) {
      assert WithinExpiry(s, h.key, h.row);
    }
  }

  // ----- one lease holder -----

  /** With a single pass, the copies it holds are current unless replaced, and attempts count the reschedules. */
  ghost predicate SoleInv(s: System, p: nat) {
    && s.passes.Keys == {p}
    && (forall k :: k in s.table ==> Count(s.log, Postponed(k, s.table[k].generation)) == s.table[k].attempts)
    && var batch := s.passes[p].batch;
       && (forall i, j :: 0 <= i < j < |batch| ==> batch[i].key != batch[j].key)
       && (forall i :: 0 <= i < |batch| && Matches(s.table, batch[i]) ==> s.table[batch[i].key] == batch[i].row)
  }

  lemma CountSnoc(log: seq<Record>, r: Record, x: Record)
    ensures Count(log + [r], x) == Count(log, x) + if r == x then 1 else 0
  {
    assert (log + [r])[..|log|] == log;
  }

  lemma SoleEnqueueOk(s: System, p: nat, key: Key, g: nat, expiresAt: int)
    requires Inv(s) && SoleInv(s, p) && g !in s.births && s.now < expiresAt
    ensures SoleInv(Apply(s, Enqueue(key, g, expiresAt)), p)
  {
    hide MinSpent, Accounted, JudgedFirst;
    var s' := Apply(s, Enqueue(key, g, expiresAt));
    assert PassOk(s, s.passes[p]);
    forall k | k in s'.table
      ensures Count(s'.log, Postponed(k, s'.table[k].generation)) == s'.table[k].attempts
    {
      CountSnoc(s.log, Enqueued(key, g), Postponed(k, s'.table[k].generation));
      if k == key {
        CountAbsent(s.log, Postponed(key, g));
      }
    }
    forall i | 0 <= i < |s'.passes[p].batch| && Matches(s'.table, s'.passes[p].batch[i])
      ensures s'.table[s'.passes[p].batch[i].key] == s'.passes[p].batch[i].row
    {
      var h := s.passes[p].batch[i];
      assert RowOk(s, h.key, h.row);
    }
  }

  lemma SoleRescheduleOk(s: System, p: nat, random: Random)
    requires Inv(s) && SoleInv(s, p) && s.passes[p].batch != [] && s.passes[p].stage == Rescheduling
    ensures SoleInv(RowStep(s, Reschedule(p, random)), p)
  {
    hide MinSpent, RetryTime, RowOk, PassOk, Accounted, LogMatchesBirths, JudgedFirst;
    var s', h := RowStep(s, Reschedule(p, random)), s.passes[p].batch[0];
    forall k | k in s'.table
      ensures Count(s'.log, Postponed(k, s'.table[k].generation)) == s'.table[k].attempts
    {
      CountSnoc(s.log, Postponed(h.key, h.row.generation), Postponed(k, s'.table[k].generation));
    }
    SoleRest(s, s', p);
  }

  lemma SoleRest(s: System, s': System, p: nat)
    requires SoleInv(s, p) && s.passes[p].batch != [] && s'.passes == s.passes[p := Next(s.passes[p])]
    requires forall k :: k in s'.table && k != s.passes[p].batch[0].key ==> k in s.table && s'.table[k] == s.table[k]
    ensures var batch := s'.passes[p].batch;
            && (forall i, j :: 0 <= i < j < |batch| ==> batch[i].key != batch[j].key)
            && (forall i :: 0 <= i < |batch| && Matches(s'.table, batch[i]) ==> s'.table[batch[i].key] == batch[i].row)
  {
    var batch, batch' := s.passes[p].batch, s'.passes[p].batch;
    forall i | 0 <= i < |batch'| ensures batch'[i] == batch[i + 1] && batch'[i].key != batch[0].key {}
  }

  lemma SoleClearOk(s: System, p: nat)
    requires Inv(s) && SoleInv(s, p) && s.passes[p].batch != [] && s.passes[p].stage.Clearing?
    ensures SoleInv(RowStep(s, Clear(p)), p)
  {
    hide RowOk, PassOk, Accounted, LogMatchesBirths, JudgedFirst;
    var s', h := RowStep(s, Clear(p)), s.passes[p].batch[0];
    forall k | k in s'.table
      ensures Count(s'.log, Postponed(k, s'.table[k].generation)) == s'.table[k].attempts
    {
      var cleared := Cleared(h.key, h.row.generation, s.passes[p].stage.reason);
      CountSnoc(s.log, cleared, Postponed(k, s'.table[k].generation));
    }
    SoleRest(s, s', p);
  }

  /** A step that leaves the table alone, logs at most a judgement, and keeps, drops or freshly reads the batch. */
  lemma SoleQuietOk(s: System, s': System, p: nat)
    requires SoleInv(s, p) && s'.passes.Keys == {p} && s'.table == s.table
    requires s'.log == s.log || (|s'.log| == |s.log| + 1 && s'.log[..|s.log|] == s.log && s'.log[|s.log|].Judged?)
    requires s'.passes[p].batch in {s.passes[p].batch, []} || exists t :: IsBatch(s.table, t, s'.passes[p].batch)
    ensures SoleInv(s', p)
  {
    if s'.log != s.log {
      assert s'.log == s.log + [s'.log[|s.log|]];
      forall k | k in s'.table
        ensures Count(s'.log, Postponed(k, s'.table[k].generation)) == s'.table[k].attempts
      {
        CountSnoc(s.log, s'.log[|s.log|], Postponed(k, s'.table[k].generation));
      }
    }
  }

  lemma SoleStepOk(s: System, p: nat, e: Event)
    requires Inv(s) && SoleInv(s, p)
    ensures SoleInv(Apply(s, e), p)
  {
    hide Inv, RetryTime, IsBatch, Count;
    if e.Enqueue? {
      if e.generation !in s.births && s.now < e.expiresAt {
        SoleEnqueueOk(s, p, e.key, e.generation, e.expiresAt);
      }
    } else if s.passes[p].batch != [] && e == Clear(p) && s.passes[p].stage.Clearing? {
      SoleClearOk(s, p);
    } else if s.passes[p].batch != [] && e.Reschedule? && e.pass == p && s.passes[p].stage == Rescheduling {
      SoleRescheduleOk(s, p, e.random);
    } else {
      SoleQuietOk(s, Apply(s, e), p);
    }
  }

  lemma {:induction false} SoleRunOk(s: System, p: nat, events: seq<Event>)
    requires Init(s) && s.passes.Keys == {p}
    ensures SoleInv(Run(s, events), p)
  {
    hide Apply;
    if events != [] {
      var front := events[..|events| - 1];
      SoleRunOk(s, p, front);
      RunOk(s, front);
      SoleStepOk(Run(s, front), p, events[|events| - 1]);
    }
  }

  /**
   * Under one lease holder the attempts of a row count its reschedules, so at most as many reschedules happen as fit
   * into the lifetime of the registration.
   */
  lemma ReschedulesFitIntoTheRegistration(s: System, p: nat, events: seq<Event>, key: Key)
    requires Init(s) && s.passes.Keys == {p} && key in Run(s, events).table
    ensures var t := Run(s, events); var row := t.table[key];
            && row.generation in t.births
            && var n := Count(t.log, Postponed(key, row.generation));
               n > 0 ==> MinSpent(n - 1) < row.expiresAt - t.births[row.generation].enqueuedAt
  {
    hide Run;
    RetriesEndWithTheRegistration(s, events, key);
    SoleRunOk(s, p, events);
  }

  ghost predicate ReschedulesFit(s: System, g: nat)
    requires g in s.births
  {
    var b := s.births[g];
    var n := Count(s.log, Postponed(b.key, g));
    n > 0 ==> MinSpent(n - 1) < b.expiresAt - b.enqueuedAt
  }

  /** A generation that is not in the table after a step was not rescheduled in it. */
  lemma NotRescheduled(s: System, e: Event, g: nat)
    requires Inv(s) && g in Apply(s, e).births && !IsCurrent(Apply(s, e), g)
    ensures g in s.births && Apply(s, e).births[g] == s.births[g]
    ensures var x := Postponed(s.births[g].key, g); Count(Apply(s, e).log, x) == Count(s.log, x)
  {
    hide RowOk, PassOk, Accounted, LogMatchesBirths, JudgedFirst, IsBatch, RetryTime, Count;
    var s' := Apply(s, e);
    assert g in s.births;
    var x := Postponed(s.births[g].key, g);
    if !e.Tick? && !e.Enqueue? && e.pass in s.passes && s.passes[e.pass].batch != [] {
      HeldOk(s, e.pass);
    }
    assert s'.log == s.log || (s'.log == s.log + [s'.log[|s.log|]] && s'.log[|s.log|] != x);
    if s'.log != s.log {
      CountSnoc(s.log, s'.log[|s.log|], x);
    }
  }

  /** The bound for every generation ever enqueued, cleared and replaced ones included. */
  lemma {:induction false} EveryGenerationsReschedulesFit(s: System, p: nat, events: seq<Event>, g: nat)
    requires Init(s) && s.passes.Keys == {p} && g in Run(s, events).births
    ensures ReschedulesFit(Run(s, events), g)
  {
    hide Apply, Inv, MinSpent, Count;
    if events != [] {
      var t := Run(s, events);
      var front := events[..|events| - 1];
      RunOk(s, front);
      RunOk(s, events);
      if IsCurrent(t, g) {
        ReschedulesFitIntoTheRegistration(s, p, events, t.births[g].key);
        CurrentExpiry(t, g);
      } else {
        NotRescheduled(Run(s, front), events[|events| - 1], g);
        EveryGenerationsReschedulesFit(s, p, front, g);
      }
    }
  }

  lemma CurrentExpiry(s: System, g: nat)
    requires Inv(s) && g in s.births && IsCurrent(s, g)
    ensures s.table[s.births[g].key].expiresAt == s.births[g].expiresAt
  {
    assert RowOk(s, s.births[g].key, s.table[s.births[g].key]);
  }
}
