/**
 * The notice table as the object that enqueues and retries: with a clock that stands still and
 * nothing enqueued meanwhile, one call of `Retry` handles every due row exactly once and stops.
 */
module NoticeQueues {
  import opened Prelude
  import opened DeletionNotices

  datatype Recipient = Recipient(service: nat, expiry: Option<int>)  // None: the date does not parse

  /** What the outside answers during one call: space states, delivery results and random numbers. */
  datatype World = World(state: Key -> SpaceState, deliver: Key -> DeliveryResult, random: Key -> Random)

  /** What becomes of a due row: removed, or postponed. */
  function Handled(w: World, key: Key, row: Row, now: int): Option<Row> {
    if row.expiresAt <= now then None
    else match w.state(key)
      case Active => None
      case Missing => None
      case Paused => Some(Rescheduled(row, now, w.random(key)))
      case Deleted =>
        if w.deliver(key) == Failed then Some(Rescheduled(row, now, w.random(key))) else None
  }

  /** No further attempt is needed: too late, the space is back or unknown, or the service has answered for good. */
  predicate IsFinal(w: World, key: Key, row: Row, now: int) {
    || row.expiresAt <= now
    || w.state(key) == Active || w.state(key) == Missing
    || (w.state(key) == Deleted && (w.deliver(key) == Accepted || w.deliver(key) == PermanentlyRefused))
  }

  /** The same notice after one more attempt, due again between half the delay and the delay, or at its expiry. */
  predicate IsPostponed(row: Row, later: Row, now: int) {
    && later.generation == row.generation && later.expiresAt == row.expiresAt && later.attempts == row.attempts + 1
    && now < later.retryAt <= row.expiresAt && later.retryAt < now + Delay(row.attempts + 1)
    && (later.retryAt < row.expiresAt ==> now + Delay(row.attempts + 1) / 2 <= later.retryAt)
  }

  /** What an attempt leaves in the table of the row that was there. */
  predicate Settled(t: Table, w: World, key: Key, row: Row, now: int) {
    if IsFinal(w, key, row, now) then key !in t else key in t && IsPostponed(row, t[key], now)
  }

  lemma HandledSettles(t: Table, w: World, key: Key, row: Row, now: int)
    requires var r := Handled(w, key, row, now); if r.None? then key !in t else key in t && t[key] == r.value
    ensures Settled(t, w, key, row, now)
  {
    if now < row.expiresAt {
      RetryTimeBounds(row, now, w.random(key));
    }
  }

  /** Every due row is settled, and every other row is as before. */
  ghost predicate AllSettled(was: Table, t: Table, w: World, now: int) {
    && (forall k :: k in was && was[k].retryAt <= now ==> Settled(t, w, k, was[k], now))
    && (forall k :: k in was && now < was[k].retryAt ==> k in t && t[k] == was[k])
    && (forall k :: k in t ==> k in was)
  }

  lemma AfterRetrySettles(was: Table, w: World, now: int)
    ensures AllSettled(was, AfterRetry(was, w, now), w, now)
  {
    hide Settled, Handled;
    var t := AfterRetry(was, w, now);
    forall k | k in was && was[k].retryAt <= now ensures Settled(t, w, k, was[k], now) {
      HandledSettles(t, w, k, was[k], now);
    }
  }

  function AfterRetry(t: Table, w: World, now: int): Table {
    map k | k in t && (now < t[k].retryAt || Handled(w, k, t[k], now).Some?) ::
      if now < t[k].retryAt then t[k] else Handled(w, k, t[k], now).value
  }

  predicate Counts(r: Recipient, now: int) {
    r.expiry.Some? && now < r.expiry.value
  }

  /** The recipients in order; a later one for the same service replaces an earlier one. */
  function EnqueueAll(t: Table, space: nat, recipients: seq<Recipient>, generations: seq<nat>, now: int): Table
    requires |generations| == |recipients|
  {
    var n := |recipients|;
    if n == 0 then t
    else
      var before := EnqueueAll(t, space, recipients[..n - 1], generations[..n - 1], now);
      var r := recipients[n - 1];
      if !Counts(r, now) then before
      else before[Key(space, r.service) := Row(generations[n - 1], 0, now, r.expiry.value)]
  }

  /** Each service ends up with a fresh row of its last unexpired registration. */
  lemma {:induction false} EnqueueKeepsLatest(t: Table, space: nat, recipients: seq<Recipient>, generations: seq<nat>,
                                              now: int, i: nat)
    requires |generations| == |recipients| && i < |recipients|
    requires recipients[i].expiry.Some? && now < recipients[i].expiry.value
    requires forall j :: i < j < |recipients| && recipients[j].service == recipients[i].service ==>
               recipients[j].expiry.None? || recipients[j].expiry.value <= now
    ensures var t', key := EnqueueAll(t, space, recipients, generations, now), Key(space, recipients[i].service);
            key in t' && t'[key] == Row(generations[i], 0, now, recipients[i].expiry.value)
  {
    var n := |recipients|;
    if i < n - 1 {
      EnqueueKeepsLatest(t, space, recipients[..n - 1], generations[..n - 1], now, i);
    }
  }

  /** All other rows are untouched. */
  lemma {:induction false} EnqueueKeepsOthers(t: Table, space: nat, recipients: seq<Recipient>, generations: seq<nat>,
                                              now: int, key: Key)
    requires |generations| == |recipients|
    requires forall i :: 0 <= i < |recipients| && key == Key(space, recipients[i].service) ==>
               recipients[i].expiry.None? || recipients[i].expiry.value <= now
    ensures var t' := EnqueueAll(t, space, recipients, generations, now);
            (key in t' <==> key in t) && (key in t ==> t'[key] == t[key])
  {
    var n := |recipients|;
    if n > 0 {
      EnqueueKeepsOthers(t, space, recipients[..n - 1], generations[..n - 1], now, key);
    }
  }

  class NoticeQueue {
    const owner: nat
    var table: Table
    var leaseOwner: Option<nat>
    var leaseUntil: int

    constructor (owner: nat)
      ensures this.owner == owner && table == map[] && leaseOwner == None
    {
      this.owner := owner;
      table, leaseOwner, leaseUntil := map[], None, 0;
    }

    /** A registration whose expiry does not parse fails the call before anything is stored. */
    method Enqueue(space: nat, recipients: seq<Recipient>, generations: seq<nat>, now: int) returns (ok: bool)
      requires |generations| == |recipients|
      modifies this`table
      ensures ok <==> forall i :: 0 <= i < |recipients| ==> recipients[i].expiry.Some?
      ensures table == if ok then EnqueueAll(old(table), space, recipients, generations, now) else old(table)
    {
      for i := 0 to |recipients|
        invariant forall j :: 0 <= j < i ==> recipients[j].expiry.Some?
        invariant table == old(table)
      {
        if recipients[i].expiry.None? {
          return false;
        }
      }
      for i := 0 to |recipients|
        invariant table == EnqueueAll(old(table), space, recipients[..i], generations[..i], now)
      {
        var r := recipients[i];
        assert recipients[..i + 1][..i] == recipients[..i] && generations[..i + 1][..i] == generations[..i];
        if now < r.expiry.value {
          table := table[Key(space, r.service) := Row(generations[i], 0, now, r.expiry.value)];
        }
      }
      assert recipients[..|recipients|] == recipients && generations[..|recipients|] == generations;
      ok := true;
    }

    method Clear(h: Held)
      modifies this`table
      ensures table == ClearRow(old(table), h)
    {
      if h.key in table && table[h.key].generation == h.row.generation {
        table := table - {h.key};
      }
    }

    method Reschedule(h: Held, now: int, random: Random)
      modifies this`table
      ensures table == RescheduleRow(old(table), h, now, random)
    {
      var attempts := h.row.attempts + 1;
      var delay := Min(HOUR, MINUTE * Pow2(Min(attempts - 1, 6)));
      if h.key in table && table[h.key].generation == h.row.generation {
        var retryAt := Min(h.row.expiresAt, now + (delay as real * (0.5 + random / 2.0)).Floor);
        table := table[h.key := table[h.key].(attempts := attempts, retryAt := retryAt)];
      }
    }

    /** The row may have been replaced or changed since it was read: only its generation is looked at. */
    method RetryOne(h: Held, now: int, w: World)
      modifies this`table
      ensures var r := Handled(w, h.key, h.row, now);
              table == if r.None? then ClearRow(old(table), h)
                       else if !Matches(old(table), h) then old(table)
                       else old(table)[h.key := old(table)[h.key].(attempts := r.value.attempts,
                                                                   retryAt := r.value.retryAt)]
      ensures old(h.key in table && table[h.key] == h.row) ==>
                var r := Handled(w, h.key, h.row, now);
                table == if r.None? then old(table) - {h.key} else old(table)[h.key := r.value]
      ensures old(h.key in table && table[h.key] == h.row) ==> Settled(table, w, h.key, h.row, now)
      ensures table - {h.key} == old(table) - {h.key}
      ensures old(h.key !in table || table[h.key].generation != h.row.generation) ==> table == old(table)
    {
      if now < h.row.expiresAt {
        RetryTimeBounds(h.row, now, w.random(h.key));
      }
      if h.row.expiresAt <= now {
        Clear(h);
        return;
      }
      var state := w.state(h.key);
      if state == Active || state == Missing {
        Clear(h);
      } else if state == Paused {
        Reschedule(h, now, w.random(h.key));
      } else {
        var result := w.deliver(h.key);
        if result == Failed {
          Reschedule(h, now, w.random(h.key));
        } else {
          Clear(h);
        }
      }
    }

    /** The longest due of the given keys. */
    method Earliest(due: set<Key>) returns (first: Key)
      requires due != {} && due <= table.Keys
      ensures first in due && forall k :: k in due ==> table[first].retryAt <= table[k].retryAt
    {
      first :| first in due;
      var rest := due - {first};
      while rest != {}
        invariant rest <= due && first in due
        invariant forall k :: k in due - rest ==> table[first].retryAt <= table[k].retryAt
        decreases rest
      {
        var k :| k in rest;
        if table[k].retryAt < table[first].retryAt {
          first := k;
        }
        rest := rest - {k};
      }
    }

    /** A selection in progress: `batch` holds the earliest of the rows in `all`, and `due` is the rest of them. */
    static ghost predicate Picked(t: Table, all: set<Key>, due: set<Key>, batch: seq<Held>) {
      && due <= all <= t.Keys
      && (forall h :: h in batch ==> h.key in all - due && h.row == t[h.key])
      && (forall i, j :: 0 <= i < j < |batch| ==> batch[i].key != batch[j].key)
      && (forall i, j :: 0 <= i < j < |batch| ==> batch[i].row.retryAt <= batch[j].row.retryAt)
      && (forall k :: k in all - due ==> Held(k, t[k]) in batch)
      && (forall h, k :: h in batch && k in due ==> h.row.retryAt <= t[k].retryAt)
    }

    static lemma PickedNext(t: Table, all: set<Key>, due: set<Key>, batch: seq<Held>, k: Key)
      requires Picked(t, all, due, batch) && k in due
      requires forall o :: o in due ==> t[k].retryAt <= t[o].retryAt
      ensures Picked(t, all, due - {k}, batch + [Held(k, t[k])])
    {
      var longer := batch + [Held(k, t[k])];
      assert longer[|batch|] == Held(k, t[k]);
      assert forall h :: h in longer <==> h in batch || h == Held(k, t[k]);
      assert forall i :: 0 <= i < |batch| ==> longer[i] == batch[i] && batch[i] in batch;
    }

    static lemma PickedIsBatch(t: Table, now: int, due: set<Key>, batch: seq<Held>)
      requires Picked(t, (set k | k in t.Keys && t[k].retryAt <= now), due, batch)
      requires |batch| <= BATCH_SIZE && (due == {} || |batch| == BATCH_SIZE)
      ensures IsBatch(t, now, batch)
      ensures batch == [] ==> forall k :: k in t ==> now < t[k].retryAt
    {
      assert forall i :: 0 <= i < |batch| ==> batch[i] in batch;
    }

    /** The query of a pass: at most five due rows, ordered by retry time. */
    method FetchDue(now: int) returns (batch: seq<Held>)
      ensures IsBatch(table, now, batch)
      ensures batch == [] ==> forall k :: k in table ==> now < table[k].retryAt
    {
      hide IsBatch;
      var due := set k | k in table.Keys && table[k].retryAt <= now;
      ghost var all := due;
      batch := [];
      while due != {} && |batch| < BATCH_SIZE
        invariant |batch| <= BATCH_SIZE && due <= table.Keys
        invariant Picked(table, all, due, batch)
        decreases due
      {
        var k := Earliest(due);
        PickedNext(table, all, due, batch, k);
        batch := batch + [Held(k, table[k])];
        due := due - {k};
      }
      PickedIsBatch(table, now, due, batch);
    }

    /** What a key holds when the keys in `done` have been handled. */
    static ghost predicate HandledSoFar(was: Table, t: Table, done: set<Key>, w: World, now: int) {
      && (forall k :: k in t ==> k in was)
      && (forall k :: k in was && k !in done ==> k in t && t[k] == was[k])
      && (forall k :: k in was && k in done ==>
            var r := Handled(w, k, was[k], now); if r.None? then k !in t else k in t && t[k] == r.value)
    }

    static lemma HandledLater(w: World, key: Key, row: Row, now: int)
      ensures var r := Handled(w, key, row, now); r.Some? ==> now < r.value.retryAt
    {
      if now < row.expiresAt {
        RetryTimeBounds(row, now, w.random(key));
      }
    }

    static lemma HandledOne(was: Table, t: Table, done: set<Key>, h: Held, w: World, now: int)
      requires HandledSoFar(was, t, done, w, now) && h.key in t && t[h.key] == h.row && h.key !in done
      ensures var r := Handled(w, h.key, h.row, now);
              HandledSoFar(was, if r.None? then t - {h.key} else t[h.key := r.value], done + {h.key}, w, now)
    {
      hide Handled;
      assert h.key in was && was[h.key] == h.row;
    }

    /** One batch: each of its rows is handled once. */
    method RetryBatch(batch: seq<Held>, now: int, w: World, ghost was: Table, ghost done: set<Key>)
      requires IsBatch(table, now, batch) && HandledSoFar(was, table, done, w, now)
      modifies this`table
      ensures HandledSoFar(was, table, done + Keys(batch), w, now)
    {
      FreshKeys(was, table, batch, now, w, done);
      hide Handled, HandledSoFar;
      ghost var finished := done;
      for i := 0 to |batch|
        invariant HandledSoFar(was, table, finished, w, now)
        invariant finished == done + Keys(batch[..i])
        invariant forall j :: i <= j < |batch| ==> batch[j].key in table && table[batch[j].key] == batch[j].row
      {
        KeysSnoc(batch, i);
        HandledOne(was, table, finished, batch[i], w, now);
        RetryOne(batch[i], now, w);
        finished := finished + {batch[i].key};
      }
      assert batch[..|batch|] == batch;
    }

    static lemma KeysSnoc(batch: seq<Held>, i: nat)
      requires i < |batch| && forall j, l :: 0 <= j < l < |batch| ==> batch[j].key != batch[l].key
      ensures Keys(batch[..i + 1]) == Keys(batch[..i]) + {batch[i].key}
      ensures batch[i].key !in Keys(batch[..i]) && batch[i].key in Keys(batch)
    {
      assert batch[..i + 1] == batch[..i] + [batch[i]];
      forall h | h in batch[..i] ensures h.key != batch[i].key {
        var j :| 0 <= j < i && batch[j] == h;
      }
    }

    static ghost function Keys(batch: seq<Held>): set<Key> {
      set h | h in batch :: h.key
    }

    static ghost function DueKeys(t: Table, now: int): set<Key> {
      set k | k in t.Keys && t[k].retryAt <= now
    }

    /** A batch takes new keys, all of them due. */
    static lemma BatchTakes(was: Table, t: Table, batch: seq<Held>, now: int, w: World, done: set<Key>)
      requires IsBatch(t, now, batch) && HandledSoFar(was, t, done, w, now) && done <= DueKeys(was, now) && batch != []
      ensures done < done + Keys(batch) <= DueKeys(was, now)
    {
      hide Handled, HandledSoFar, IsBatch;
      FreshKeys(was, t, batch, now, w, done);
      assert batch[0] in batch && batch[0].key in Keys(batch);
    }

    /** When none is due any more, all that were due have been handled. */
    static lemma AllHandled(was: Table, t: Table, done: set<Key>, w: World, now: int)
      requires HandledSoFar(was, t, done, w, now) && done <= DueKeys(was, now)
      requires forall k :: k in t ==> now < t[k].retryAt
      ensures t == AfterRetry(was, w, now)
    {
      hide Handled;
      assert forall k :: k in DueKeys(was, now) ==> k in done || k in t;
    }

    /** The loop: batches until none is due. */
    method RetryDue(now: int, w: World)
      modifies this`table
      ensures table == AfterRetry(old(table), w, now)
      ensures forall k :: k in table ==> now < table[k].retryAt
    {
      hide Handled, HandledSoFar, IsBatch;
      ghost var was, done := table, {};
      assert HandledSoFar(was, table, done, w, now) by { NothingHandled(was, w, now); }
      var batch := FetchDue(now);
      while batch != []
        invariant done <= DueKeys(was, now) && HandledSoFar(was, table, done, w, now) && IsBatch(table, now, batch)
        invariant batch == [] ==> forall k :: k in table ==> now < table[k].retryAt
        decreases DueKeys(was, now) - done
      {
        BatchTakes(was, table, batch, now, w, done);
        RetryBatch(batch, now, w, was, done);
        done := done + Keys(batch);
        batch := FetchDue(now);
      }
      AllHandled(was, table, done, w, now);
    }

    static lemma NothingHandled(was: Table, w: World, now: int)
      ensures HandledSoFar(was, was, {}, w, now)
    {
    }

    /** One call: nothing without the lease; with it, every due row is handled once, and none is due afterwards. */
    method Retry(now: int, w: World) returns (held: bool)
      modifies this
      ensures held <==> old(leaseOwner == Some(owner) || leaseUntil <= now)
      ensures held ==> table == AfterRetry(old(table), w, now) && AllSettled(old(table), table, w, now)
      ensures held ==> leaseOwner == Some(owner) && leaseUntil == now + MINUTE
      ensures held ==> forall k :: k in table ==> now < table[k].retryAt
      ensures !held ==> table == old(table) && leaseOwner == old(leaseOwner) && leaseUntil == old(leaseUntil)
    {
      held := leaseOwner == Some(owner) || leaseUntil <= now;
      if !held {
        return;
      }
      leaseOwner, leaseUntil := Some(owner), now + MINUTE;
      hide AfterRetry, AllSettled;
      AfterRetrySettles(table, w, now);
      RetryDue(now, w);
    }

    /** Rows that are due have not been handled before. */
    static lemma FreshKeys(was: Table, t: Table, batch: seq<Held>, now: int, w: World, done: set<Key>)
      requires IsBatch(t, now, batch) && HandledSoFar(was, t, done, w, now)
      ensures forall k :: k in Keys(batch) ==> k in was && was[k].retryAt <= now && k !in done
    {
      forall k | k in Keys(batch) ensures k in was && was[k].retryAt <= now && k !in done {
        var i :| 0 <= i < |batch| && batch[i].key == k;
        if k in done {
          HandledLater(w, k, was[k], now);
        }
      }
    }
  }
}
