/**
 * `EtcdMap`: a replica fed by watch events and by the entries of a snapshot, in any order. Entries
 * carry the revision of the store; a deletion is an entry without a value.
 */
module EtcdMaps {
  import opened Prelude

  type Key = string

  datatype Versioned = Versioned(value: Option<string>, rev: nat)

  datatype Entry = Entry(key: Key, item: Versioned)

  type Inner = map<Key, Versioned>

  /** `apply`: an entry older than the one that is there is ignored. */
  function Applied(inner: Inner, e: Entry): Inner {
    if e.key in inner && inner[e.key].rev > e.item.rev then inner else inner[e.key := e.item]
  }

  function AppliedAll(inner: Inner, entries: seq<Entry>): Inner {
    if entries == [] then inner
    else Applied(AppliedAll(inner, entries[..|entries| - 1]), entries[|entries| - 1])
  }

  // ----- main results -----

  /** An entry for the key, at least as new as all other delivered entries for it. */
  predicate IsNewest(entries: seq<Entry>, e: Entry) {
    e in entries && forall o :: o in entries && o.key == e.key ==> o.item.rev <= e.item.rev
  }

  /** The entry at i, and every later one for its key is older. */
  predicate IsLastNewest(entries: seq<Entry>, i: int, e: Entry) {
    && 0 <= i < |entries| && entries[i] == e
    && forall j :: i < j < |entries| && entries[j].key == e.key ==> entries[j].item.rev < e.item.rev
  }

  /** What the map holds for a key, said of the delivered entries alone. */
  ghost predicate HoldsNewest(entries: seq<Entry>, inner: Inner, key: Key) {
    && (key in inner <==> exists i :: 0 <= i < |entries| && entries[i].key == key)
    && (key in inner ==>
          IsNewest(entries, Entry(key, inner[key])) && exists i :: IsLastNewest(entries, i, Entry(key, inner[key])))
  }

  lemma OneMoreEntry(front: seq<Entry>, inner: Inner, e: Entry, key: Key)
    requires HoldsNewest(front, inner, key)
    ensures HoldsNewest(front + [e], Applied(inner, e), key)
  {
    var entries, inner' := front + [e], Applied(inner, e);
    assert entries[|front|] == e && forall o :: o in entries <==> o in front || o == e;
    if key in inner && inner'[key] == inner[key] && (e.key != key || inner[key].rev > e.item.rev) {
      var i :| IsLastNewest(front, i, Entry(key, inner[key]));
      assert entries[i] == front[i] && IsLastNewest(entries, i, Entry(key, inner'[key]));
    } else if e.key == key {
      assert IsLastNewest(entries, |front|, Entry(key, inner'[key]));
      forall o | o in front && o.key == key ensures o.item.rev <= e.item.rev {
        var i :| 0 <= i < |front| && front[i] == o;
      }
    } else {
      assert forall i :: 0 <= i < |front| ==> entries[i] == front[i];
    }
  }

  /** The map holds for each key, among the entries delivered, one of greatest revision: the last of these delivered. */
  lemma {:induction false} HoldsGreatestRevision(entries: seq<Entry>, key: Key)
    ensures HoldsNewest(entries, AppliedAll(map[], entries), key)
  {
    if entries != [] {
      hide HoldsNewest, Applied;
      var front, e := entries[..|entries| - 1], entries[|entries| - 1];
      HoldsGreatestRevision(front, key);
      OneMoreEntry(front, AppliedAll(map[], front), e, key);
      assert entries == front + [e];
    }
  }

  lemma NextEntry(entries: seq<Entry>, inner: Inner, e: Entry)
    requires forall key :: HoldsNewest(entries, inner, key)
    ensures forall key :: HoldsNewest(entries + [e], Applied(inner, e), key)
  {
    hide HoldsNewest, Applied;
    forall key ensures HoldsNewest(entries + [e], Applied(inner, e), key) {
      OneMoreEntry(entries, inner, e, key);
    }
  }

  class EtcdMap {
    var inner: Inner
    var updates: nat   // how often the handlers were called
    ghost var delivered: seq<Entry>

    /** For every key the newest entry delivered so far is held, by watch and by snapshot alike. */
    ghost predicate Valid()
      reads this
    {
      forall key :: HoldsNewest(delivered, inner, key)
    }

    constructor ()
      ensures Valid() && delivered == [] && inner == map[] && updates == 0
    {
      inner, updates, delivered := map[], 0, [];
    }

    method Apply(key: Key, item: Versioned)
      requires Valid()
      modifies this
      ensures Valid() && delivered == old(delivered) + [Entry(key, item)]
      ensures inner == Applied(old(inner), Entry(key, item))
      ensures updates == old(updates) + if key in old(inner) && old(inner)[key].rev > item.rev then 0 else 1
    {
      ghost var e := Entry(key, item);
      NextEntry(delivered, inner, e);
      delivered := delivered + [e];
      if key in inner && inner[key].rev > item.rev {
        assert Applied(inner, e) == inner;
        return;
      }
      assert Applied(inner, e) == inner[key := item];
      inner := inner[key := item];
      updates := updates + 1;
    }

    method OnPut(key: Key, value: string, rev: nat)
      requires Valid()
      modifies this
      ensures Valid() && delivered == old(delivered) + [Entry(key, Versioned(Some(value), rev))]
    {
      Apply(key, Versioned(Some(value), rev));
    }

    method OnDelete(key: Key, rev: nat)
      requires Valid()
      modifies this
      ensures Valid() && delivered == old(delivered) + [Entry(key, Versioned(None, rev))]
    {
      Apply(key, Versioned(None, rev));
    }

    /** The loop of `connect` over the snapshot; watch events may have arrived before. */
    method LoadSnapshot(kvs: seq<Entry>)
      requires Valid()
      modifies this
      ensures Valid() && delivered == old(delivered) + kvs
    {
      for i := 0 to |kvs|
        invariant Valid() && delivered == old(delivered) + kvs[..i]
      {
        assert kvs[..i + 1] == kvs[..i] + [kvs[i]];
        Apply(kvs[i].key, kvs[i].item);
      }
      assert kvs[..|kvs|] == kvs;
    }

    /** The value of a newest entry for the key; nothing if there is none, or if it is a deletion. */
    function Get(key: Key): (r: Option<string>)
      requires Valid()
      reads this
      ensures r.Some? ==> exists rev :: IsNewest(delivered, Entry(key, Versioned(r, rev)))
      ensures r.None? ==> (forall e :: e in delivered ==> e.key != key)
                          || exists rev :: IsNewest(delivered, Entry(key, Versioned(None, rev)))
    {
      assert HoldsNewest(delivered, inner, key);
      if key in inner then
        assert IsNewest(delivered, Entry(key, Versioned(inner[key].value, inner[key].rev)));
        inner[key].value
      else None
    }
  }

  /** Of the newest entries delivered for a key, all are the same. */
  ghost predicate NewestUnique(entries: seq<Entry>) {
    forall e, f :: IsNewest(entries, e) && IsNewest(entries, f) && e.key == f.key ==> e == f
  }

  ghost predicate SameEntries(a: seq<Entry>, b: seq<Entry>) {
    forall e :: e in a <==> e in b
  }

  /** Replicas that were delivered the same entries agree, whatever the order and however often. */
  lemma NewestDecides(a: seq<Entry>, b: seq<Entry>)
    requires SameEntries(a, b) && NewestUnique(a)
    ensures AppliedAll(map[], a) == AppliedAll(map[], b)
  {
    var x, y := AppliedAll(map[], a), AppliedAll(map[], b);
    forall key ensures (key in x <==> key in y) && (key in x ==> x[key] == y[key]) {
      HoldsGreatestRevision(a, key);
      HoldsGreatestRevision(b, key);
      if key in x {
        var i :| 0 <= i < |a| && a[i].key == key;
        assert a[i] in b;
      }
      if key in y {
        var i :| 0 <= i < |b| && b[i].key == key;
        assert b[i] in a;
      }
      if key in x && key in y {
        assert IsNewest(a, Entry(key, x[key])) && IsNewest(a, Entry(key, y[key]));
      }
    }
  }

  /** A newest entry that is delivered last is the one that is held. */
  lemma LastIsHeld(entries: seq<Entry>, e: Entry)
    requires entries != [] && entries[|entries| - 1] == e && IsNewest(entries, e)
    ensures var inner := AppliedAll(map[], entries); e.key in inner && inner[e.key] == e.item
  {
    HoldsGreatestRevision(entries, e.key);
    var held := Entry(e.key, AppliedAll(map[], entries)[e.key]);
    var i :| IsLastNewest(entries, i, held);
    assert i == |entries| - 1;
  }

  function MovedLast(entries: seq<Entry>, i: nat): (r: seq<Entry>)
    requires i < |entries|
    ensures multiset(r) == multiset(entries)
  {
    assert entries == entries[..i] + [entries[i]] + entries[i + 1..];
    entries[..i] + entries[i + 1..] + [entries[i]]
  }

  lemma MovedIsHeld(entries: seq<Entry>, e: Entry) returns (moved: seq<Entry>)
    requires IsNewest(entries, e)
    ensures multiset(moved) == multiset(entries)
    ensures var inner := AppliedAll(map[], moved); e.key in inner && inner[e.key] == e.item
  {
    var i :| 0 <= i < |entries| && entries[i] == e;
    moved := MovedLast(entries, i);
    assert forall o :: o in multiset(moved) <==> o in multiset(entries);
    assert forall o :: o in moved <==> o in entries;
    LastIsHeld(moved, e);
  }

  /**
   * The exact condition of convergence. If the newest entries of every key agree, every replica that was delivered
   * the same entries, in any order and however often, has the same map; if not, a mere reordering has another one.
   */
  lemma ConvergesExactlyIfNewestUnique(a: seq<Entry>)
    ensures NewestUnique(a) <==> forall b :: SameEntries(a, b) ==> AppliedAll(map[], a) == AppliedAll(map[], b)
    ensures NewestUnique(a) <==>
            forall b :: multiset(a) == multiset(b) ==> AppliedAll(map[], a) == AppliedAll(map[], b)
  {
    if NewestUnique(a) {
      forall b | SameEntries(a, b) || multiset(a) == multiset(b)
        ensures AppliedAll(map[], a) == AppliedAll(map[], b)
      {
        PermutedIsSame(a, b);
        NewestDecides(a, b);
      }
    } else {
      var e, f :| IsNewest(a, e) && IsNewest(a, f) && e.key == f.key && e != f;
      var x := MovedIsHeld(a, e);
      var y := MovedIsHeld(a, f);
      PermutedIsSame(a, x);
      PermutedIsSame(a, y);
    }
  }

  lemma PermutedIsSame(a: seq<Entry>, b: seq<Entry>)
    ensures multiset(a) == multiset(b) ==> SameEntries(a, b)
  {
    if multiset(a) == multiset(b) {
      assert forall e :: e in a <==> e in multiset(a);
      assert forall e :: e in b <==> e in multiset(b);
    }
  }

  /** In the store a key has one value per revision. */
  ghost predicate OneValuePerRevision(entries: seq<Entry>) {
    forall a, b :: a in entries && b in entries && a.key == b.key && a.item.rev == b.item.rev ==> a == b
  }

  /** What the store promises is enough. */
  lemma ReplicasConverge(a: seq<Entry>, b: seq<Entry>)
    requires forall e :: e in a <==> e in b
    requires OneValuePerRevision(a)
    ensures AppliedAll(map[], a) == AppliedAll(map[], b)
  {
    NewestDecides(a, b);
  }

  /** The smallest case: two entries of one revision. */
  lemma EqualRevisionsDoNotConverge(key: Key, v: Option<string>, w: Option<string>, rev: nat)
    ensures var a, b := [Entry(key, Versioned(v, rev)), Entry(key, Versioned(w, rev))],
                        [Entry(key, Versioned(w, rev)), Entry(key, Versioned(v, rev))];
            AppliedAll(map[], a) == AppliedAll(map[], b) <==> v == w
  {
    var a, b := [Entry(key, Versioned(v, rev)), Entry(key, Versioned(w, rev))],
                [Entry(key, Versioned(w, rev)), Entry(key, Versioned(v, rev))];
    assert a[..1] == [a[0]] && b[..1] == [b[0]] && a[..1][..0] == [] && b[..1][..0] == [];
    assert AppliedAll(map[], a[..1]) == map[key := a[0].item] && AppliedAll(map[], b[..1]) == map[key := b[0].item];
    assert AppliedAll(map[], a)[key] == Versioned(w, rev) && AppliedAll(map[], b)[key] == Versioned(v, rev);
  }

  /** A key stays deleted until something newer than the deletion arrives; a stale snapshot does not revive it. */
  lemma StaleSnapshotDoesNotRevive(before: seq<Entry>, key: Key, rev: nat, later: seq<Entry>)
    requires Entry(key, Versioned(None, rev)) in before
    requires forall e :: e in before + later && e.key == key && e.item.rev >= rev ==> e.item.value == None
    ensures var inner := AppliedAll(map[], before + later); key in inner && inner[key].value == None
  {
    var all := before + later;
    HoldsGreatestRevision(all, key);
    assert Entry(key, Versioned(None, rev)) in all;
    var i :| 0 <= i < |all| && all[i] == Entry(key, Versioned(None, rev));
    assert all[i].key == key;
    var held := Entry(key, AppliedAll(map[], all)[key]);
    assert IsNewest(all, held);
    assert held in before + later;
  }
}
