/** Saved-feed preferences of an account: packages/api/src/agent.ts and packages/api/src/util.ts. */
module SavedFeeds {
  import opened Prelude

  // ---------- Preferences ----------

  datatype Kind = Feed | List | Timeline | Unknown

  /** A string value, told apart by whether the lexicon's AT-URI format accepts it. */
  datatype Value = AtUri(text: string) | Text(text: string)

  datatype SavedFeed = SavedFeed(id: string, kind: Kind, value: Value, pinned: bool)

  /**
   * One entry of the preference list, by its `$type`. A malformed entry carries the `$type` of a
   * saved-feed preference and fails its schema; an unrelated one carries any other `$type`.
   */
  datatype Pref =
    | FeedsV2(items: seq<SavedFeed>)
    | FeedsV1(saved: seq<Value>, pinned: seq<Value>, timelineIndex: Option<int>)
    | MalformedV2(raw: string)
    | MalformedV1(raw: string)
    | Unrelated(raw: string)

  predicate IsV2(p: Pref) { p.FeedsV2? || p.MalformedV2? }

  predicate IsV1(p: Pref) { p.FeedsV1? || p.MalformedV1? }

  predicate NotV2(p: Pref) { !IsV2(p) }

  predicate NotV1(p: Pref) { !IsV1(p) }

  predicate IsUnrelated(p: Pref) { p.Unrelated? }

  predicate IsValidV2(p: Pref) { p.FeedsV2? }

  predicate IsValidV1(p: Pref) {
    p.FeedsV1? && (forall v <- p.saved :: v.AtUri?) && (forall v <- p.pinned :: v.AtUri?)
  }

  predicate IsPinned(f: SavedFeed) { f.pinned }

  predicate IsUnpinned(f: SavedFeed) { !f.pinned }

  predicate FeedOrList(f: SavedFeed) { f.kind == Feed || f.kind == List }

  // ---------- Filtering and searching a list ----------

  function Filter<T>(s: seq<T>, f: T -> bool): seq<T> {
    if s == [] then []
    else Filter(s[..|s| - 1], f) + if f(s[|s| - 1]) then [s[|s| - 1]] else []
  }

  function FindLast<T>(s: seq<T>, f: T -> bool): Option<T> {
    if s == [] then None
    else if f(s[|s| - 1]) then Some(s[|s| - 1])
    else FindLast(s[..|s| - 1], f)
  }

  lemma {:induction false} FilterAppend<T>(s: seq<T>, t: seq<T>, f: T -> bool)
    ensures Filter(s + t, f) == Filter(s, f) + Filter(t, f)
  {
    if t == [] {
      assert s + t == s;
    } else {
      assert (s + t)[..|s + t| - 1] == s + t[..|t| - 1];
      FilterAppend(s, t[..|t| - 1], f);
    }
  }

  lemma {:induction false} FilterMembers<T(!new)>(s: seq<T>, f: T -> bool)
    ensures forall x :: x in Filter(s, f) <==> x in s && f(x)
  {
    if s != [] {
      FilterMembers(s[..|s| - 1], f);
      assert s == s[..|s| - 1] + [s[|s| - 1]];
    }
  }

  /** Filtering by a condition first changes nothing when every kept element meets it. */
  lemma {:induction false} FilterTwice<T(!new)>(s: seq<T>, g: T -> bool, f: T -> bool)
    requires forall x :: f(x) ==> g(x)
    ensures Filter(Filter(s, g), f) == Filter(s, f)
  {
    if s != [] {
      var init, last := s[..|s| - 1], s[|s| - 1];
      FilterTwice(init, g, f);
      FilterAppend(Filter(init, g), if g(last) then [last] else [], f);
    }
  }

  lemma {:induction false} FilterNone<T>(s: seq<T>, f: T -> bool)
    requires forall x :: x in s ==> !f(x)
    ensures Filter(s, f) == []
  {
    if s != [] {
      FilterNone(s[..|s| - 1], f);
    }
  }

  lemma {:induction false} FilterAll<T>(s: seq<T>, f: T -> bool)
    requires forall x :: x in s ==> f(x)
    ensures Filter(s, f) == s
  {
    if s != [] {
      var init, last := s[..|s| - 1], s[|s| - 1];
      assert last in s && forall x :: x in init ==> x in s;
      FilterAll(init, f);
    }
  }

  lemma {:induction false} FindLastFiltered<T(!new)>(s: seq<T>, g: T -> bool, f: T -> bool)
    requires forall x :: f(x) ==> g(x)
    ensures FindLast(Filter(s, g), f) == FindLast(s, f)
  {
    if s != [] {
      FindLastFiltered(s[..|s| - 1], g, f);
      if g(s[|s| - 1]) {
        assert Filter(s, g)[..|Filter(s, g)| - 1] == Filter(s[..|s| - 1], g);
      } else {
        assert Filter(s, g) == Filter(s[..|s| - 1], g);
      }
    }
  }

  lemma {:induction false} FindLastFinds<T(!new)>(s: seq<T>, f: T -> bool)
    ensures match FindLast(s, f)
            case None => Filter(s, f) == []
            case Some(x) => f(x) && Filter(s, f) != [] && Filter(s, f)[|Filter(s, f)| - 1] == x
  {
    if s != [] {
      FindLastFinds(s[..|s| - 1], f);
    }
  }

  // ---------- Pinned first ----------

  /** The comparator handed to `sort`. */
  function Compare(a: SavedFeed, b: SavedFeed): int {
    if a.pinned == b.pinned then 0 else if a.pinned then -1 else 1
  }

  function Insert(sorted: seq<SavedFeed>, x: SavedFeed): seq<SavedFeed> {
    if sorted == [] || Compare(sorted[|sorted| - 1], x) <= 0 then sorted + [x]
    else Insert(sorted[..|sorted| - 1], x) + [sorted[|sorted| - 1]]
  }

  /** The stable sort ECMAScript promises, as insertion sort by the comparator. */
  function StableSort(s: seq<SavedFeed>): seq<SavedFeed> {
    if s == [] then [] else Insert(StableSort(s[..|s| - 1]), s[|s| - 1])
  }

  function PinnedFirst(s: seq<SavedFeed>): seq<SavedFeed> {
    Filter(s, IsPinned) + Filter(s, IsUnpinned)
  }

  lemma {:induction false} InsertPassesUnpinned(front: seq<SavedFeed>, back: seq<SavedFeed>, x: SavedFeed)
    requires x.pinned && (forall f :: f in front ==> f.pinned) && (forall f :: f in back ==> !f.pinned)
    ensures Insert(front + back, x) == front + [x] + back
  {
    var all := front + back;
    if back == [] {
      assert all == front;
      if front != [] {
        assert all[|all| - 1] in front;
      }
    } else {
      var last := back[|back| - 1];
      assert last in back && all[|all| - 1] == last;
      assert all[..|all| - 1] == front + back[..|back| - 1];
      InsertPassesUnpinned(front, back[..|back| - 1], x);
      assert back == back[..|back| - 1] + [last];
    }
  }

  lemma InsertStays(sorted: seq<SavedFeed>, x: SavedFeed)
    requires !x.pinned
    ensures Insert(sorted, x) == sorted + [x]
  {
  }

  /** The comparator sort is the stable partition into pinned feeds and the others. */
  lemma {:induction false} SortIsPartition(s: seq<SavedFeed>)
    ensures StableSort(s) == PinnedFirst(s)
  {
    if s != [] {
      var init, last := s[..|s| - 1], s[|s| - 1];
      SortIsPartition(init);
      FilterMembers(init, IsPinned);
      FilterMembers(init, IsUnpinned);
      var front, back := Filter(init, IsPinned), Filter(init, IsUnpinned);
      hide Insert;
      if last.pinned {
        InsertPassesUnpinned(front, back, last);
      } else {
        InsertStays(front + back, last);
        assert front + back + [last] == front + (back + [last]);
      }
    }
  }

  lemma PartitionIsStable(s: seq<SavedFeed>)
    ensures PinnedFirst(PinnedFirst(s)) == PinnedFirst(s)
    ensures Filter(PinnedFirst(s), IsPinned) == Filter(s, IsPinned)
    ensures Filter(PinnedFirst(s), IsUnpinned) == Filter(s, IsUnpinned)
  {
    hide Filter;
    FilterMembers(s, IsPinned);
    FilterMembers(s, IsUnpinned);
    var front, back := Filter(s, IsPinned), Filter(s, IsUnpinned);
    FilterAppend(front, back, IsPinned);
    FilterAppend(front, back, IsUnpinned);
    FilterAll(front, IsPinned);
    FilterNone(back, IsPinned);
    FilterNone(front, IsUnpinned);
    FilterAll(back, IsUnpinned);
  }

  // ---------- Insertion-ordered sets and the legacy arrays ----------

  /** The elements of a JavaScript `Set` filled from `s`, in insertion order. */
  function Dedupe<T(==)>(s: seq<T>): seq<T> {
    if s == [] then []
    else
      var d := Dedupe(s[..|s| - 1]);
      if s[|s| - 1] in d then d else d + [s[|s| - 1]]
  }

  ghost predicate NoDuplicates<T>(s: seq<T>) {
    forall i, j :: 0 <= i < j < |s| ==> s[i] != s[j]
  }

  lemma {:induction false} DedupeKeepsMembers<T(!new)>(s: seq<T>)
    ensures NoDuplicates(Dedupe(s))
    ensures forall x :: x in Dedupe(s) <==> x in s
  {
    if s != [] {
      DedupeKeepsMembers(s[..|s| - 1]);
      assert s == s[..|s| - 1] + [s[|s| - 1]];
    }
  }

  /** What was in the set first stays first, in its old order. */
  lemma {:induction false} DedupeExtends<T>(s: seq<T>, t: seq<T>)
    ensures Dedupe(s) <= Dedupe(s + t)
  {
    if t == [] {
      assert s + t == s;
    } else {
      assert (s + t)[..|s + t| - 1] == s + t[..|t| - 1];
      DedupeExtends(s, t[..|t| - 1]);
    }
  }

  lemma {:induction false} DedupeOfDistinct<T(!new)>(s: seq<T>)
    requires NoDuplicates(s)
    ensures Dedupe(s) == s
  {
    if s != [] {
      DedupeOfDistinct(s[..|s| - 1]);
    }
  }

  function Values(s: seq<SavedFeed>): seq<Value> {
    seq(|s|, i requires 0 <= i < |s| => s[i].value)
  }

  /** Splits saved feeds into the two legacy arrays: every value, and the pinned values. */
  method SavedFeedsToUriArrays(savedFeeds: seq<SavedFeed>) returns (pinned: seq<Value>, saved: seq<Value>)
    ensures saved == Values(savedFeeds)
    ensures pinned == Values(Filter(savedFeeds, IsPinned))
  {
    pinned, saved := [], [];
    for i := 0 to |savedFeeds|
      invariant saved == Values(savedFeeds[..i])
      invariant pinned == Values(Filter(savedFeeds[..i], IsPinned))
    {
      assert savedFeeds[..i + 1][..i] == savedFeeds[..i];
      if savedFeeds[i].pinned {
        pinned := pinned + [savedFeeds[i].value];
        saved := saved + [savedFeeds[i].value];
      } else {
        saved := saved + [savedFeeds[i].value];
      }
    }
    assert savedFeeds[..|savedFeeds|] == savedFeeds;
  }

  // ---------- One saved-feed update ----------

  type Edit = seq<SavedFeed> -> seq<SavedFeed>

  function CurrentItems(prefs: seq<Pref>): seq<SavedFeed> {
    match FindLast(prefs, IsValidV2)
    case None => []
    case Some(p) => if p.FeedsV2? then p.items else []
  }

  /** The items an update writes: the edited list, pinned feeds first. */
  function NewItems(prefs: seq<Pref>, edit: Edit): seq<SavedFeed> {
    StableSort(edit(CurrentItems(prefs)))
  }

  /** The legacy preference with every feed and list of the new items added to it. */
  function MergedV1(v1: Pref, items: seq<SavedFeed>): Pref
    requires v1.FeedsV1?
  {
    var compat := Filter(items, FeedOrList);
    FeedsV1(Dedupe(v1.saved + Values(compat)),
            Dedupe(v1.pinned + Values(Filter(compat, IsPinned))),
            v1.timelineIndex)
  }

  function WithV2(prefs: seq<Pref>, items: seq<SavedFeed>): seq<Pref> {
    Filter(prefs, NotV2) + [FeedsV2(items)]
  }

  /** The callback handed to `updatePreferences` by every saved-feed operation. */
  function Updated(prefs: seq<Pref>, edit: Edit): seq<Pref> {
    var items := NewItems(prefs, edit);
    match FindLast(prefs, IsValidV1)
    case None => WithV2(prefs, items)
    case Some(v1) =>
      if v1.FeedsV1? then Filter(WithV2(prefs, items), NotV1) + [MergedV1(v1, items)]
      else WithV2(prefs, items)
  }

  lemma WithV2HasOne(prefs: seq<Pref>, items: seq<SavedFeed>)
    ensures Filter(WithV2(prefs, items), IsV2) == [FeedsV2(items)]
    ensures FindLast(WithV2(prefs, items), IsValidV2) == Some(FeedsV2(items))
  {
    FilterMembers(prefs, NotV2);
    FilterNone(Filter(prefs, NotV2), IsV2);
    FilterAppend(Filter(prefs, NotV2), [FeedsV2(items)], IsV2);
  }

  lemma MergingKeepsV2(with: seq<Pref>, v1: Pref)
    requires IsV1(v1)
    ensures Filter(Filter(with, NotV1) + [v1], IsV2) == Filter(with, IsV2)
    ensures FindLast(Filter(with, NotV1) + [v1], IsValidV2) == FindLast(with, IsValidV2)
  {
    FilterTwice(with, NotV1, IsV2);
    FindLastFiltered(with, NotV1, IsValidV2);
    FilterAppend(Filter(with, NotV1), [v1], IsV2);
    assert (Filter(with, NotV1) + [v1])[..|Filter(with, NotV1)|] == Filter(with, NotV1);
  }

  /** Exactly one V2 preference is left, and it holds the edited list, pinned feeds first, order kept. */
  lemma OneV2Remains(prefs: seq<Pref>, edit: Edit)
    ensures Filter(Updated(prefs, edit), IsV2) == [FeedsV2(PinnedFirst(edit(CurrentItems(prefs))))]
    ensures CurrentItems(Updated(prefs, edit)) == PinnedFirst(edit(CurrentItems(prefs)))
  {
    hide Filter, FindLast, StableSort, PinnedFirst, Dedupe;
    var items := NewItems(prefs, edit);
    SortIsPartition(edit(CurrentItems(prefs)));
    WithV2HasOne(prefs, items);
    var v1 := FindLast(prefs, IsValidV1);
    if v1.Some? && v1.value.FeedsV1? {
      MergingKeepsV2(WithV2(prefs, items), MergedV1(v1.value, items));
    }
  }

  /** Preferences of every other type keep their content and their order. */
  lemma UnrelatedUntouched(prefs: seq<Pref>, edit: Edit)
    ensures Filter(Updated(prefs, edit), IsUnrelated) == Filter(prefs, IsUnrelated)
  {
    var items := NewItems(prefs, edit);
    FilterTwice(prefs, NotV2, IsUnrelated);
    FilterAppend(Filter(prefs, NotV2), [FeedsV2(items)], IsUnrelated);
    FindLastFinds(prefs, IsValidV1);
    FilterTwice(WithV2(prefs, items), NotV1, IsUnrelated);
    var v1 := FindLast(prefs, IsValidV1);
    if v1.Some? {
      FilterAppend(Filter(WithV2(prefs, items), NotV1), [MergedV1(v1.value, items)], IsUnrelated);
    }
  }

  /** The last valid V1 preference takes the place of all of them; without a valid one none is touched. */
  lemma V1Afterwards(prefs: seq<Pref>, edit: Edit)
    ensures var v1 := FindLast(prefs, IsValidV1);
            if v1.None? then Filter(Updated(prefs, edit), IsV1) == Filter(prefs, IsV1)
            else IsValidV1(v1.value)
                 && Filter(Updated(prefs, edit), IsV1) == [MergedV1(v1.value, NewItems(prefs, edit))]
  {
    var items := NewItems(prefs, edit);
    FindLastFinds(prefs, IsValidV1);
    var v1 := FindLast(prefs, IsValidV1);
    if v1.None? {
      FilterTwice(prefs, NotV2, IsV1);
      FilterAppend(Filter(prefs, NotV2), [FeedsV2(items)], IsV1);
    } else {
      var rest := Filter(WithV2(prefs, items), NotV1);
      FilterMembers(WithV2(prefs, items), NotV1);
      FilterNone(rest, IsV1);
      FilterAppend(rest, [MergedV1(v1.value, items)], IsV1);
    }
  }

  ghost predicate InV2(v: Value, items: seq<SavedFeed>, pinnedOnly: bool) {
    exists f :: f in items && FeedOrList(f) && f.value == v && (pinnedOnly ==> f.pinned)
  }

  lemma ValuesMembers(s: seq<SavedFeed>, v: Value)
    ensures v in Values(s) <==> exists f :: f in s && f.value == v
  {
    if f :| f in s && f.value == v {
      var i :| 0 <= i < |s| && s[i] == f;
      assert Values(s)[i] == v;
    }
    if v in Values(s) {
      var i :| 0 <= i < |s| && Values(s)[i] == v;
      assert s[i] in s && s[i].value == v;
    }
  }

  /**
   * A merged V1 preference loses no entry, has every feed and list URI of the V2 preference and no
   * other addition, and lists its old entries first and in their order.
   */
  lemma MergedHoldsBoth(v1: Pref, items: seq<SavedFeed>, v: Value)
    requires v1.FeedsV1?
    ensures var m := MergedV1(v1, items);
            && (v in m.saved <==> v in v1.saved || InV2(v, items, false))
            && (v in m.pinned <==> v in v1.pinned || InV2(v, items, true))
            && NoDuplicates(m.saved) && NoDuplicates(m.pinned)
            && (NoDuplicates(v1.saved) ==> v1.saved <= m.saved)
            && (NoDuplicates(v1.pinned) ==> v1.pinned <= m.pinned)
            && m.timelineIndex == v1.timelineIndex
  {
    var compat := Filter(items, FeedOrList);
    var pins := Filter(compat, IsPinned);
    FilterMembers(items, FeedOrList);
    FilterMembers(compat, IsPinned);
    ValuesMembers(compat, v);
    ValuesMembers(pins, v);
    DedupeKeepsMembers(v1.saved + Values(compat));
    DedupeKeepsMembers(v1.pinned + Values(pins));
    DedupeExtends(v1.saved, Values(compat));
    DedupeExtends(v1.pinned, Values(pins));
    if NoDuplicates(v1.saved) { DedupeOfDistinct(v1.saved); }
    if NoDuplicates(v1.pinned) { DedupeOfDistinct(v1.pinned); }
  }

  /**
   * No V1 preference disappears exactly when there is none that is valid or there is only one; the
   * others, valid or not, are dropped with all their entries.
   */
  lemma V1PreferencesSurvive(prefs: seq<Pref>, edit: Edit)
    ensures |Filter(Updated(prefs, edit), IsV1)| == |Filter(prefs, IsV1)|
            <==> Filter(prefs, IsValidV1) == [] || |Filter(prefs, IsV1)| == 1
  {
    V1Afterwards(prefs, edit);
    FindLastFinds(prefs, IsValidV1);
  }

  /** Entry v of the V1 preferences, in `saved` or in `pinned`. */
  ghost predicate HasEntry(prefs: seq<Pref>, v: Value, asPinned: bool) {
    exists p :: p in prefs && p.FeedsV1? && v in (if asPinned then p.pinned else p.saved)
  }

  /** Every V1 entry is still there, and every malformed V1 preference, whose entries cannot be told. */
  ghost predicate NothingLost(before: seq<Pref>, after: seq<Pref>) {
    && (forall v, asPinned :: HasEntry(before, v, asPinned) ==> HasEntry(after, v, asPinned))
    && (forall p :: p in before && p.MalformedV1? ==> p in after)
  }

  /** All V1 entries are in the last valid V1 preference, if there is one. */
  ghost predicate LastHoldsAll(prefs: seq<Pref>) {
    var last := FindLast(prefs, IsValidV1);
    last.Some? ==>
      && (forall p :: p in prefs ==> !p.MalformedV1?)
      && (forall v, asPinned :: HasEntry(prefs, v, asPinned) ==> HasEntry([last.value], v, asPinned))
  }

  lemma EntriesOfV1(prefs: seq<Pref>, v: Value, asPinned: bool)
    ensures HasEntry(prefs, v, asPinned) <==> HasEntry(Filter(prefs, IsV1), v, asPinned)
  {
    FilterMembers(prefs, IsV1);
  }

  lemma EntriesAfter(prefs: seq<Pref>, edit: Edit, v: Value, asPinned: bool)
    requires FindLast(prefs, IsValidV1).Some?
    ensures var last := FindLast(prefs, IsValidV1).value;
            && IsValidV1(last)
            && (HasEntry(Updated(prefs, edit), v, asPinned) <==>
                  HasEntry([last], v, asPinned) || InV2(v, NewItems(prefs, edit), asPinned))
  {
    hide Updated, MergedV1, InV2;
    V1Afterwards(prefs, edit);
    EntriesOfV1(Updated(prefs, edit), v, asPinned);
    var last, items := FindLast(prefs, IsValidV1).value, NewItems(prefs, edit);
    MergedHoldsBoth(last, items, v);
    MergedIsV1(last, items);
    assert MergedV1(last, items) in [MergedV1(last, items)] && last in [last];
  }

  lemma MergedIsV1(v1: Pref, items: seq<SavedFeed>)
    requires v1.FeedsV1?
    ensures MergedV1(v1, items).FeedsV1?
  {
  }

  /**
   * An update loses no V1 entry, whatever it edits, exactly if no V1 preference is valid or the last valid one holds
   * the entries of all of them.
   */
  lemma NoEntryLostIff(prefs: seq<Pref>)
    ensures (forall edit: Edit :: NothingLost(prefs, Updated(prefs, edit))) <==> LastHoldsAll(prefs)
  {
    hide Updated, InV2;
    var last := FindLast(prefs, IsValidV1);
    if last.None? {
      forall edit: Edit ensures NothingLost(prefs, Updated(prefs, edit)) {
        V1Untouched(prefs, edit);
      }
    } else if LastHoldsAll(prefs) {
      forall edit: Edit, v, asPinned | HasEntry(prefs, v, asPinned)
        ensures HasEntry(Updated(prefs, edit), v, asPinned)
      {
        EntriesAfter(prefs, edit, v, asPinned);
      }
    } else {
      ClearingLoses(prefs);
    }
  }

  lemma V1Untouched(prefs: seq<Pref>, edit: Edit)
    requires FindLast(prefs, IsValidV1).None?
    ensures NothingLost(prefs, Updated(prefs, edit))
  {
    hide Updated;
    V1Afterwards(prefs, edit);
    FilterMembers(prefs, IsV1);
    FilterMembers(Updated(prefs, edit), IsV1);
    forall v, asPinned | HasEntry(prefs, v, asPinned) ensures HasEntry(Updated(prefs, edit), v, asPinned) {
      EntriesOfV1(prefs, v, asPinned);
      EntriesOfV1(Updated(prefs, edit), v, asPinned);
    }
    forall p | p in prefs && p.MalformedV1? ensures p in Updated(prefs, edit) {
      assert p in Filter(prefs, IsV1);
    }
  }

  /** The edit that removes all feeds adds nothing to the last valid preference. */
  lemma ClearingLoses(prefs: seq<Pref>)
    requires !LastHoldsAll(prefs)
    ensures !NothingLost(prefs, Updated(prefs, items => []))
  {
    hide Updated, MergedV1;
    var edit: Edit := items => [];
    var last := FindLast(prefs, IsValidV1).value;
    assert NewItems(prefs, edit) == [];
    if p :| p in prefs && p.MalformedV1? {
      V1Afterwards(prefs, edit);
      MergedIsV1(last, []);
      FilterMembers(Updated(prefs, edit), IsV1);
      assert p !in [MergedV1(last, [])];
    } else {
      var v, asPinned :| HasEntry(prefs, v, asPinned) && !HasEntry([last], v, asPinned);
      EntriesAfter(prefs, edit, v, asPinned);
    }
  }

  /** A concrete entry that is lost, here by an update that edits nothing: it stands in an earlier V1 preference. */
  lemma EarlierV1IsLost()
    ensures var prefs := [FeedsV1([AtUri("a")], [], None), FeedsV1([], [], None)];
            Filter(Updated(prefs, items => items), IsV1) == [FeedsV1([], [], None)]
  {
    var prefs := [FeedsV1([AtUri("a")], [], None), FeedsV1([], [], None)];
    var edit := (items: seq<SavedFeed>) => items;
    assert FindLast(prefs, IsValidV1) == Some(prefs[1]);
    assert FindLast(prefs, IsValidV2) == None;
    V1Afterwards(prefs, edit);
    assert NewItems(prefs, edit) == [];
  }

  // ---------- The four saved-feed operations ----------

  datatype Operation =
    | Overwrite(feeds: seq<SavedFeed>)
    | SetPinned(updates: seq<SavedFeed>)
    | Add(feeds: seq<SavedFeed>)
    | Remove(ids: seq<string>)

  predicate OccursById(feeds: seq<SavedFeed>, id: string) {
    exists f <- feeds :: f.id == id
  }

  /** The feeds whose id does not occur again later, in their order. */
  function LastById(feeds: seq<SavedFeed>): seq<SavedFeed> {
    if feeds == [] then []
    else (if OccursById(feeds[1..], feeds[0].id) then [] else [feeds[0]]) + LastById(feeds[1..])
  }

  function WithoutId(feeds: seq<SavedFeed>, id: string): seq<SavedFeed> {
    if feeds == [] then []
    else (if feeds[0].id == id then [] else [feeds[0]]) + WithoutId(feeds[1..], id)
  }

  lemma OccursSnoc(feeds: seq<SavedFeed>, f: SavedFeed, id: string)
    ensures OccursById(feeds + [f], id) <==> OccursById(feeds, id) || f.id == id
  {
    assert f in feeds + [f];
    assert forall g :: g in feeds + [f] <==> g in feeds || g == f;
  }

  lemma WithoutIdCons(head: SavedFeed, tail: seq<SavedFeed>, id: string)
    ensures WithoutId([head] + tail, id) == if head.id == id then WithoutId(tail, id) else [head] + WithoutId(tail, id)
  {
    assert ([head] + tail)[1..] == tail;
  }

  lemma LastByIdCons(head: SavedFeed, tail: seq<SavedFeed>)
    ensures LastById([head] + tail) == if OccursById(tail, head.id) then LastById(tail) else [head] + LastById(tail)
  {
    assert ([head] + tail)[1..] == tail;
  }

  lemma LastByIdOne(f: SavedFeed)
    ensures LastById([f]) == WithoutId(LastById([]), f.id) + [f]
  {
    assert LastById([f]) == [f] + LastById([f][1..]);
  }

  lemma SnocStep(head: SavedFeed, rest: seq<SavedFeed>, f: SavedFeed)
    requires LastById(rest + [f]) == WithoutId(LastById(rest), f.id) + [f]
    ensures LastById([head] + (rest + [f])) == WithoutId(LastById([head] + rest), f.id) + [f]
  {
    hide OccursById, WithoutId, LastById;
    OccursSnoc(rest, f, head.id);
    LastByIdCons(head, rest);
    LastByIdCons(head, rest + [f]);
    WithoutIdCons(head, LastById(rest), f.id);
    var left := WithoutId(LastById(rest), f.id);
    assert [head] + (left + [f]) == [head] + left + [f];
  }

  /** Deleting a key and inserting it again keeps the last feed of each id, at its last place. */
  lemma {:induction false} LastByIdSnoc(feeds: seq<SavedFeed>, f: SavedFeed)
    ensures LastById(feeds + [f]) == WithoutId(LastById(feeds), f.id) + [f]
  {
    hide OccursById, WithoutId, LastById;
    if feeds == [] {
      LastByIdOne(f);
      assert feeds + [f] == [f];
    } else {
      var head, rest := feeds[0], feeds[1..];
      LastByIdSnoc(rest, f);
      SnocStep(head, rest, f);
      assert feeds == [head] + rest && feeds + [f] == [head] + (rest + [f]);
    }
  }

  /** The insertion-ordered `Map` of `overwriteSavedFeeds`, as the sequence of its values. */
  method UniqueFeeds(savedFeeds: seq<SavedFeed>) returns (unique: seq<SavedFeed>)
    ensures unique == LastById(savedFeeds)
  {
    unique := [];
    for i := 0 to |savedFeeds|
      invariant unique == LastById(savedFeeds[..i])
    {
      LastByIdSnoc(savedFeeds[..i], savedFeeds[i]);
      assert savedFeeds[..i + 1] == savedFeeds[..i] + [savedFeeds[i]];
      unique := WithoutId(unique, savedFeeds[i].id);
      unique := unique + [savedFeeds[i]];
    }
    assert savedFeeds[..|savedFeeds|] == savedFeeds;
  }

  function FirstById(feeds: seq<SavedFeed>, id: string): Option<SavedFeed> {
    if feeds == [] then None
    else if feeds[0].id == id then Some(feeds[0])
    else FirstById(feeds[1..], id)
  }

  function Repinned(f: SavedFeed, updates: seq<SavedFeed>): SavedFeed {
    match FirstById(updates, f.id)
    case None => f
    case Some(u) => f.(pinned := u.pinned)
  }

  /** `find` answers with the id itself, and an empty id counts as not found. */
  function Staying(ids: seq<string>): SavedFeed -> bool {
    (f: SavedFeed) => f.id !in ids || f.id == ""
  }

  function EditOf(op: Operation): Edit {
    match op
    case Overwrite(feeds) => items => LastById(feeds)
    case SetPinned(updates) => items => seq(|items|, i requires 0 <= i < |items| => Repinned(items[i], updates))
    case Add(feeds) => items => items + feeds
    case Remove(ids) => items => Filter(items, Staying(ids))
  }

  /** What is left by `overwriteSavedFeeds`: every id once, with its last feed. */
  lemma {:induction false} LastByIdMembers(feeds: seq<SavedFeed>)
    ensures forall f :: f in LastById(feeds) ==> f in feeds
    ensures forall id :: OccursById(feeds, id) <==> OccursById(LastById(feeds), id)
    ensures forall i, j :: 0 <= i < j < |LastById(feeds)| ==> LastById(feeds)[i].id != LastById(feeds)[j].id
  {
    if feeds != [] {
      var rest := feeds[1..];
      LastByIdMembers(rest);
      assert feeds == [feeds[0]] + rest;
      assert forall f :: f in feeds <==> f == feeds[0] || f in rest;
      var tail := LastById(rest);
      forall id
        ensures OccursById(feeds, id) <==> OccursById(LastById(feeds), id)
      {
        assert OccursById(feeds, id) <==> feeds[0].id == id || OccursById(rest, id);
        if !OccursById(rest, feeds[0].id) {
          assert forall f :: f in [feeds[0]] + tail <==> f == feeds[0] || f in tail;
        }
      }
      if !OccursById(rest, feeds[0].id) {
        assert !OccursById(tail, feeds[0].id);
        assert forall j :: 0 <= j < |tail| ==> tail[j] in tail && tail[j].id != feeds[0].id;
      }
    }
  }

  predicate IsLastOfItsId(feeds: seq<SavedFeed>, j: nat) {
    j < |feeds| && !OccursById(feeds[j + 1..], feeds[j].id)
  }

  /** The feed that stands for an id is the last one with it. */
  lemma {:induction false} LastByIdIsLast(feeds: seq<SavedFeed>, f: SavedFeed)
    ensures f in LastById(feeds) <==> exists j :: 0 <= j < |feeds| && feeds[j] == f && IsLastOfItsId(feeds, j)
  {
    hide OccursById;
    if feeds != [] {
      var rest := feeds[1..];
      LastByIdIsLast(rest, f);
      assert forall j :: 0 < j < |feeds| ==> rest[j - 1] == feeds[j] && rest[j..] == feeds[j + 1..];
      assert forall j :: 0 < j < |feeds| ==> (IsLastOfItsId(feeds, j) <==> IsLastOfItsId(rest, j - 1));
      if j :| 0 <= j < |rest| && rest[j] == f && IsLastOfItsId(rest, j) {
        assert feeds[j + 1] == f && IsLastOfItsId(feeds, j + 1);
      }
      assert IsLastOfItsId(feeds, 0) <==> !OccursById(rest, feeds[0].id);
      assert LastById(feeds) == (if OccursById(rest, feeds[0].id) then [] else [feeds[0]]) + LastById(rest);
    }
  }

  /** `updateSavedFeeds` changes nothing but pins, each to what the first update of its id says. */
  lemma {:induction false} SetPinnedOnlyPins(f: SavedFeed, updates: seq<SavedFeed>)
    ensures var g := Repinned(f, updates);
            && g.(pinned := f.pinned) == f
            && (!OccursById(updates, f.id) ==> g == f)
            && (forall j :: 0 <= j < |updates| && updates[j].id == f.id && !OccursById(updates[..j], f.id) ==>
                  g.pinned == updates[j].pinned)
  {
    hide OccursById;
    FirstByIdFinds(updates, f.id);
  }

  lemma {:induction false} FirstByIdFinds(feeds: seq<SavedFeed>, id: string)
    ensures FirstById(feeds, id).Some? <==> OccursById(feeds, id)
    ensures forall j :: 0 <= j < |feeds| && feeds[j].id == id && !OccursById(feeds[..j], id) ==>
              FirstById(feeds, id) == Some(feeds[j])
  {
    if feeds != [] && feeds[0].id != id {
      var rest := feeds[1..];
      FirstByIdFinds(rest, id);
      forall j | 0 <= j < |feeds| && feeds[j].id == id && !OccursById(feeds[..j], id)
        ensures FirstById(feeds, id) == Some(feeds[j])
      {
        assert rest[j - 1] == feeds[j] && forall f :: f in rest[..j - 1] ==> f in feeds[..j];
      }
    } else if feeds != [] {
      assert feeds[0] in feeds;
      assert forall j :: 0 < j < |feeds| ==> feeds[0] in feeds[..j];
    }
  }

  /** `removeSavedFeeds` keeps exactly the feeds that are not named; an empty id cannot be named. */
  lemma RemovedAreGone(items: seq<SavedFeed>, ids: seq<string>, f: SavedFeed)
    ensures f in EditOf(Remove(ids))(items) <==> f in items && (f.id !in ids || f.id == "")
  {
    FilterMembers(items, Staying(ids));
  }

  function Ids(feeds: seq<SavedFeed>): seq<string> {
    seq(|feeds|, i requires 0 <= i < |feeds| => feeds[i].id)
  }

  lemma DropsOnlyAdded(items: seq<SavedFeed>, feeds: seq<SavedFeed>, f: SavedFeed -> bool)
    requires forall a, b :: a in items && b in feeds ==> a.id != b.id
    requires forall b :: b in feeds ==> b.id != ""
    ensures Filter(Filter(items + feeds, f), Staying(Ids(feeds))) == Filter(items, f)
  {
    hide Filter;
    var stays := Staying(Ids(feeds));
    FilterAppend(items, feeds, f);
    FilterAppend(Filter(items, f), Filter(feeds, f), stays);
    FilterMembers(items, f);
    FilterMembers(feeds, f);
    assert forall b :: b in feeds ==> b.id in Ids(feeds) by {
      forall b | b in feeds
        ensures b.id in Ids(feeds)
      {
        var i :| 0 <= i < |feeds| && feeds[i] == b;
        assert Ids(feeds)[i] == b.id;
      }
    }
    FilterAll(Filter(items, f), stays);
    FilterNone(Filter(feeds, f), stays);
  }

  /** Removing what was just added leaves the saved feeds as they were, pinned ones first. */
  lemma RemoveUndoesAdd(prefs: seq<Pref>, feeds: seq<SavedFeed>)
    requires forall a, b :: a in CurrentItems(prefs) && b in feeds ==> a.id != b.id
    requires forall b :: b in feeds ==> b.id != ""
    ensures CurrentItems(Updated(Updated(prefs, EditOf(Add(feeds))), EditOf(Remove(Ids(feeds)))))
            == PinnedFirst(CurrentItems(prefs))
  {
    hide Filter, CurrentItems, Updated, Staying;
    var items := CurrentItems(prefs);
    OneV2Remains(prefs, EditOf(Add(feeds)));
    var added := Updated(prefs, EditOf(Add(feeds)));
    OneV2Remains(added, EditOf(Remove(Ids(feeds))));
    DropsOnlyAdded(items, feeds, IsPinned);
    DropsOnlyAdded(items, feeds, IsUnpinned);
    FilterAppend(Filter(items + feeds, IsPinned), Filter(items + feeds, IsUnpinned), Staying(Ids(feeds)));
    PartitionIsStable(items);
  }

  // ---------- What the four operations make of a list ----------

  /** The elements of s at the given positions, in their order. */
  ghost predicate Picks<T(!new)>(s: seq<T>, at: seq<int>, picked: seq<T>) {
    && StrictlyIncreasing(at) && |at| == |picked|
    && forall i :: 0 <= i < |at| ==> 0 <= at[i] < |s| && picked[i] == s[at[i]]
  }

  lemma PicksSnoc<T(!new)>(s: seq<T>, x: T, at: seq<int>, picked: seq<T>)
    requires Picks(s, at, picked)
    ensures Picks(s + [x], at, picked) && Picks(s + [x], at + [|s|], picked + [x])
    ensures forall k :: k in at + [|s|] <==> k in at || k == |s|
  {
  }

  lemma {:induction false} FilterPicks<T(!new)>(s: seq<T>, f: T -> bool) returns (at: seq<int>)
    ensures Picks(s, at, Filter(s, f))
    ensures forall k :: k in at <==> 0 <= k < |s| && f(s[k])
  {
    if s == [] {
      at := [];
    } else {
      var n := |s| - 1;
      var front := FilterPicks(s[..n], f);
      hide Picks;
      PicksSnoc(s[..n], s[n], front, Filter(s[..n], f));
      assert s == s[..n] + [s[n]];
      at := if f(s[n]) then front + [n] else front;
    }
  }

  lemma Shift(at: seq<int>) returns (later: seq<int>)
    requires StrictlyIncreasing(at)
    ensures |later| == |at| && StrictlyIncreasing(later)
    ensures forall i :: 0 <= i < |at| ==> later[i] == at[i] + 1
    ensures forall k :: k in later <==> k - 1 in at
  {
    later := seq(|at|, i requires 0 <= i < |at| => at[i] + 1);
    forall k ensures k in later <==> k - 1 in at {
      if k - 1 in at {
        var i :| 0 <= i < |at| && at[i] == k - 1;
        assert later[i] == k;
      }
    }
  }

  lemma {:induction false} LastByIdPicks(feeds: seq<SavedFeed>) returns (at: seq<int>)
    ensures Picks(feeds, at, LastById(feeds))
    ensures forall k: int :: k in at <==> 0 <= k && IsLastOfItsId(feeds, k)
  {
    if feeds == [] {
      at := [];
    } else {
      var rest := feeds[1..];
      var tail := LastByIdPicks(rest);
      var later := Shift(tail);
      at := if OccursById(rest, feeds[0].id) then later else [0] + later;
      PicksOneEarlier(feeds, at, later, tail);
      hide Picks, LastById, OccursById;
      assert forall k :: 0 < k < |feeds| ==> feeds[k] == rest[k - 1] && feeds[k + 1..] == rest[k..];
      assert forall k :: 0 < k ==> (IsLastOfItsId(feeds, k) <==> IsLastOfItsId(rest, k - 1));
    }
  }

  lemma PicksLater<T(!new)>(s: seq<T>, later: seq<int>, tail: seq<int>, picked: seq<T>)
    requires s != [] && Picks(s[1..], tail, picked)
    requires StrictlyIncreasing(later) && |later| == |tail|
    requires forall i :: 0 <= i < |tail| ==> later[i] == tail[i] + 1
    ensures Picks(s, later, picked)
  {
    assert forall i :: 0 <= i < |later| ==> 0 <= tail[i] < |s[1..]| && s[1..][tail[i]] == s[later[i]];
  }

  lemma PicksCons<T(!new)>(s: seq<T>, later: seq<int>, picked: seq<T>)
    requires s != [] && Picks(s, later, picked) && forall i :: 0 <= i < |later| ==> 0 < later[i]
    ensures Picks(s, [0] + later, [s[0]] + picked)
  {
    hide StrictlyIncreasing;
    ConsIncreasing(later);
    var at, all := [0] + later, [s[0]] + picked;
    assert forall i :: 0 < i < |at| ==> at[i] == later[i - 1] && all[i] == picked[i - 1];
  }

  lemma ConsIncreasing(later: seq<int>)
    requires StrictlyIncreasing(later) && forall i :: 0 <= i < |later| ==> 0 < later[i]
    ensures StrictlyIncreasing([0] + later)
  {
    var at := [0] + later;
    forall i, j | 0 <= i < j < |at| ensures at[i] < at[j] {
      assert at[j] == later[j - 1];
      assert i > 0 ==> at[i] == later[i - 1];
    }
  }

  lemma PicksOneEarlier(feeds: seq<SavedFeed>, at: seq<int>, later: seq<int>, tail: seq<int>)
    requires feeds != [] && Picks(feeds[1..], tail, LastById(feeds[1..]))
    requires StrictlyIncreasing(later) && |later| == |tail|
    requires forall i :: 0 <= i < |tail| ==> later[i] == tail[i] + 1
    requires at == if OccursById(feeds[1..], feeds[0].id) then later else [0] + later
    ensures Picks(feeds, at, LastById(feeds))
    ensures forall k :: k in at <==> k in later || (k == 0 && !OccursById(feeds[1..], feeds[0].id))
  {
    assert forall i :: 0 <= i < |later| ==> 0 < later[i];
    assert forall k :: k in [0] + later <==> k == 0 || k in later;
    hide OccursById, Picks;
    var rest := LastById(feeds[1..]);
    PicksLater(feeds, later, tail, rest);
    PicksCons(feeds, later, rest);
    assert [] + rest == rest;
  }

  /** `overwriteSavedFeeds` makes the list of those feeds whose id does not occur again after them. */
  lemma OverwriteKeepsTheLast(items: seq<SavedFeed>, feeds: seq<SavedFeed>) returns (at: seq<int>)
    ensures Picks(feeds, at, EditOf(Overwrite(feeds))(items))
    ensures forall k: int :: k in at <==> 0 <= k && IsLastOfItsId(feeds, k)
  {
    at := LastByIdPicks(feeds);
  }

  /** `updateSavedFeeds` keeps every feed in its place; its pin is that of the first update with its id, if any. */
  lemma SetPinnedKeepsPlaces(items: seq<SavedFeed>, updates: seq<SavedFeed>, i: nat)
    requires i < |items|
    ensures var e := EditOf(SetPinned(updates))(items);
            && |e| == |items| && e[i] == items[i].(pinned := e[i].pinned)
            && (!OccursById(updates, items[i].id) ==> e[i].pinned == items[i].pinned)
            && (forall j :: 0 <= j < |updates| && updates[j].id == items[i].id && !OccursById(updates[..j], items[i].id)
                  ==> e[i].pinned == updates[j].pinned)
  {
    SetPinnedOnlyPins(items[i], updates);
  }

  /** `addSavedFeeds` appends, in order; `removeSavedFeeds` keeps, in order, the feeds that are not named. */
  lemma AddAppendsRemoveKeepsOrder(items: seq<SavedFeed>, feeds: seq<SavedFeed>, ids: seq<string>)
    returns (at: seq<int>)
    ensures EditOf(Add(feeds))(items) == items + feeds
    ensures Picks(items, at, EditOf(Remove(ids))(items))
    ensures forall k :: k in at <==> 0 <= k < |items| && (items[k].id !in ids || items[k].id == "")
  {
    at := FilterPicks(items, Staying(ids));
  }

  /** The list that is edited is that of the last valid V2 preference, and empty without one. */
  lemma {:induction false} CurrentItemsAreTheLast(prefs: seq<Pref>, k: nat)
    ensures (forall p :: p in prefs ==> !p.FeedsV2?) ==> CurrentItems(prefs) == []
    ensures k < |prefs| && prefs[k].FeedsV2? && (forall m :: k < m < |prefs| ==> !prefs[m].FeedsV2?) ==>
              CurrentItems(prefs) == prefs[k].items
  {
    if prefs != [] {
      var init := prefs[..|prefs| - 1];
      assert forall p :: p in init ==> p in prefs;
      CurrentItemsAreTheLast(init, k);
    }
  }

  /** The stored list after an update: the pinned feeds of the edited list in order, then the others in order. */
  lemma StoredItems(prefs: seq<Pref>, edit: Edit) returns (pinned: seq<int>, others: seq<int>)
    ensures var e, stored := edit(CurrentItems(prefs)), CurrentItems(Updated(prefs, edit));
            && |pinned| <= |stored| && Picks(e, pinned, stored[..|pinned|]) && Picks(e, others, stored[|pinned|..])
            && (forall k :: k in pinned <==> 0 <= k < |e| && e[k].pinned)
            && (forall k :: k in others <==> 0 <= k < |e| && !e[k].pinned)
  {
    hide Filter, Updated, CurrentItems;
    var e := edit(CurrentItems(prefs));
    OneV2Remains(prefs, edit);
    pinned := FilterPicks(e, IsPinned);
    others := FilterPicks(e, IsUnpinned);
  }
}
