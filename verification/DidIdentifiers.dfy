/** Fast matching of `#id` and `did#id`: tests of length, one code unit, prefix and suffix instead of a comparison. */
module DidIdentifiers {
  import opened Prelude
  import opened Dids

  const HASH: CodeUnit := 0x23

  predicate StartsWith(s: Text, prefix: Text) {
    |prefix| <= |s| && s[..|prefix|] == prefix
  }

  predicate EndsWith(s: Text, suffix: Text) {
    |suffix| <= |s| && s[|s| - |suffix|..] == suffix
  }

  predicate Matches(did: Text, id: Text, candidate: Text) {
    if CharCodeAt(candidate, 0) == Some(HASH) then
      |candidate| == |id| + 1 && EndsWith(candidate, id)
    else
      && |candidate| == |id| + 1 + |did|
      && CharCodeAt(candidate, |did|) == Some(HASH)
      && StartsWith(candidate, did)
      && EndsWith(candidate, id)
  }

  /** The comparison that the tests replace. */
  predicate Names(did: Text, id: Text, candidate: Text) {
    candidate == [HASH] + id || candidate == did + [HASH] + id
  }

  lemma SameParts(did: Text, id: Text, candidate: Text)
    requires |candidate| == |id| + 1 + |did|
    ensures candidate == did + [HASH] + id <==>
            StartsWith(candidate, did) && candidate[|did|] == HASH && EndsWith(candidate, id)
  {
    if StartsWith(candidate, did) && candidate[|did|] == HASH && EndsWith(candidate, id) {
      assert candidate == candidate[..|did|] + [candidate[|did|]] + candidate[|did| + 1..];
    }
  }

  lemma MatchesNames(did: Text, id: Text, candidate: Text)
    requires did == [] || did[0] != HASH
    ensures Matches(did, id, candidate) <==> Names(did, id, candidate)
  {
    if |candidate| == |id| + 1 {
      SameParts([], id, candidate);
      assert [] + [HASH] + id == [HASH] + id;
    }
    if |candidate| == |id| + 1 + |did| {
      SameParts(did, id, candidate);
    }
    if candidate == did + [HASH] + id && did != [] {
      assert candidate[0] == did[0];
    }
    if candidate == did + [HASH] + id && did == [] {
      assert candidate == [HASH] + id;
    }
  }

  /** The fast test is the comparison, for every candidate, exactly if the DID does not itself begin with a hash. */
  lemma FastMatchIsComparison(did: Text, id: Text)
    ensures (forall candidate: Text :: Matches(did, id, candidate) <==> Names(did, id, candidate)) <==>
            !(did != [] && did[0] == HASH)
  {
    if did == [] || did[0] != HASH {
      forall candidate: Text ensures Matches(did, id, candidate) <==> Names(did, id, candidate) {
        MatchesNames(did, id, candidate);
      }
    } else {
      var candidate := did + [HASH] + id;
      assert candidate[0] == HASH && |candidate| > |id| + 1;
      assert Names(did, id, candidate) && !Matches(did, id, candidate);
    }
  }

  // ----- items of a document -----

  predicate ItemMatches(docId: Text, id: Text, itemId: Text) {
    if CharCodeAt(itemId, 0) == Some(HASH) then itemId == id
    else
      && |itemId| == |docId| + |id|
      && CharCodeAt(itemId, |docId|) == Some(HASH)
      && EndsWith(itemId, id)
      && StartsWith(itemId, docId)
  }

  predicate ItemNamed(docId: Text, id: Text, itemId: Text) {
    itemId == id || itemId == docId + id
  }

  predicate IsFragment(id: Text) {
    id != [] && id[0] == HASH
  }

  lemma ItemMatchesNamed(docId: Text, id: Text, itemId: Text)
    requires IsFragment(id) && !IsFragment(docId)
    ensures ItemMatches(docId, id, itemId) <==> ItemNamed(docId, id, itemId)
  {
    if |itemId| == |docId| + |id| {
      assert itemId == itemId[..|docId|] + itemId[|docId|..];
      if docId != [] && itemId == docId + id {
        assert itemId[0] == docId[0];
      }
    }
    if docId == [] {
      assert docId + id == id;
    }
  }

  /** The fast test is the comparison, for every item, exactly if the id is a fragment and the document's id is not. */
  lemma FastItemTestIsComparison(docId: Text, id: Text)
    ensures (forall itemId: Text :: ItemMatches(docId, id, itemId) <==> ItemNamed(docId, id, itemId)) <==>
            IsFragment(id) && !IsFragment(docId)
  {
    if IsFragment(id) && !IsFragment(docId) {
      forall itemId: Text ensures ItemMatches(docId, id, itemId) <==> ItemNamed(docId, id, itemId) {
        ItemMatchesNamed(docId, id, itemId);
      }
    } else {
      var itemId := docId + id;
      assert ItemNamed(docId, id, itemId);
      if IsFragment(docId) {
        assert itemId[0] == HASH;
        assert |itemId| > |id|;
        assert !ItemMatches(docId, id, itemId);
      } else {
        assert docId != [] ==> itemId[0] == docId[0];
        assert id != [] ==> itemId[|docId|] == id[0];
        assert !ItemMatches(docId, id, itemId);
      }
    }
  }

  /** The loop of `findItemById` over the ids of a section that may be missing: the first item that matches. */
  method FindItemById(docId: Text, items: Option<seq<Text>>, id: Text) returns (at: Option<nat>)
    ensures at.Some? ==> items.Some? && at.value < |items.value| && ItemMatches(docId, id, items.value[at.value])
                         && forall j :: 0 <= j < at.value ==> !ItemMatches(docId, id, items.value[j])
    ensures at.None? && items.Some? ==> forall j :: 0 <= j < |items.value| ==> !ItemMatches(docId, id, items.value[j])
    ensures IsFragment(id) && !IsFragment(docId) && items.Some? ==>
              (at.None? <==> forall j :: 0 <= j < |items.value| ==> !ItemNamed(docId, id, items.value[j]))
              && (at.Some? ==> ItemNamed(docId, id, items.value[at.value])
                               && forall j :: 0 <= j < at.value ==> !ItemNamed(docId, id, items.value[j]))
  {
    if items.None? {
      return None;
    }
    ghost var fast := IsFragment(id) && !IsFragment(docId);
    for i := 0 to |items.value|
      invariant forall j :: 0 <= j < i ==> !ItemMatches(docId, id, items.value[j])
      invariant fast ==> forall j :: 0 <= j < i ==> !ItemNamed(docId, id, items.value[j])
    {
      var itemId := items.value[i];
      if fast {
        ItemMatchesNamed(docId, id, itemId);
      }
      if ItemMatches(docId, id, itemId) {
        return Some(i);
      }
    }
    at := None;
  }
}
