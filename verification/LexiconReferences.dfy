/**
 * What resolving references does to a document, said of the document before and after: which address
 * each reference becomes, that nothing else changes, and when the resolution throws.
 */
module LexiconReferences {
  import opened Prelude
  import opened LexiconIndex

  /** The address that a reference stands for: a fragment hangs onto the base, anything else has or gets the scheme. */
  predicate Names(s: string, base: string, uri: string) {
    if StartsWith(s, "#") then uri == base + s
    else if StartsWith(s, LEX) then uri == s
    else uri == LEX + s
  }

  /** The first field of that name, which is the one that counts. */
  predicate IsFirst(fields: seq<Field>, i: nat, name: string)
    requires i < |fields|
  {
    fields[i].name == name && forall k :: 0 <= k < i ==> fields[k].name != name
  }

  /** A text for a text, naming its address; an array of texts for an array of texts, each naming its own. */
  predicate Named(v: Json, w: Json, base: string) {
    match v
    case Str(s) => w.Str? && Names(s, base, w.s)
    case Arr(items) =>
      w.Arr? && |w.items| == |items|
      && forall i :: 0 <= i < |items| ==> items[i].Str? && w.items[i].Str? && Names(items[i].s, base, w.items[i].s)
    case _ => false
  }

  predicate SameNames(f: seq<Field>, g: seq<Field>) {
    |g| == |f| && forall i :: 0 <= i < |f| ==> g[i].name == f[i].name
  }

  /** The references of a node, under `ref` or `refs`, are named; its other fields are as they were. */
  predicate NodeNamed(f: seq<Field>, g: seq<Field>, base: string, name: string) {
    SameNames(f, g)
    && forall i :: 0 <= i < |f| ==>
         if IsFirst(f, i, name) then Named(f[i].value, g[i].value, base) else g[i].value == f[i].value
  }

  function RefName(fields: seq<Field>): string {
    if HasType(fields, "ref") then "ref" else "refs"
  }

  predicate IsNode(fields: seq<Field>) {
    HasType(fields, "ref") || HasType(fields, "union")
  }

  /** The same tree with every reference named. */
  predicate OnlyRefsNamed(j: Json, k: Json, base: string)
    decreases j, 1
  {
    match j
    case Obj(f) =>
      && k.Obj? && SameNames(f, k.fields)
      && if IsNode(f) then NodeNamed(f, k.fields, base, RefName(f))
         else forall i :: 0 <= i < |f| ==> OnlyRefsNamedIn(f[i].value, k.fields[i].value, base)
    case Arr(items) =>
      k.Arr? && |k.items| == |items| && forall i :: 0 <= i < |items| ==> OnlyRefsNamedIn(items[i], k.items[i], base)
    case _ => k == j
  }

  /** Under a key, the fragments of an array are named as well. */
  predicate OnlyRefsNamedIn(v: Json, w: Json, base: string)
    decreases v, 2
  {
    if v.Arr? then
      w.Arr? && |w.items| == |v.items| && forall i :: 0 <= i < |v.items| ==> ItemNamed(v.items[i], w.items[i], base)
    else OnlyRefsNamed(v, w, base)
  }

  predicate ItemNamed(v: Json, w: Json, base: string)
    decreases v, 2
  {
    if IsFragment(v) then w == Str(base + v.s) else OnlyRefsNamed(v, w, base)
  }

  predicate IsFragment(v: Json) {
    v.Str? && StartsWith(v.s, "#")
  }

  // ----- when the resolution throws -----

  predicate Fit(v: Json) {
    v.Str? && HashCount(v.s) <= 1
  }

  /** A node has its references, as texts with at most one hash. */
  predicate NodeFit(fields: seq<Field>) {
    var refs := Lookup(fields, RefName(fields));
    && refs.Some?
    && if HasType(fields, "ref") then Fit(refs.value)
       else refs.value.Arr? && forall i :: 0 <= i < |refs.value.items| ==> Fit(refs.value.items[i])
  }

  predicate Resolvable(j: Json)
    decreases j, 1
  {
    match j
    case Obj(f) =>
      if IsNode(f) then NodeFit(f) else forall i :: 0 <= i < |f| ==> ResolvableIn(f[i].value)
    case Arr(items) => forall i :: 0 <= i < |items| ==> ResolvableIn(items[i])
    case _ => true
  }

  predicate ResolvableIn(v: Json)
    decreases v, 2
  {
    if v.Arr? then
      forall i :: 0 <= i < |v.items| ==> ItemFit(v.items[i])
    else Resolvable(v)
  }

  predicate ItemFit(v: Json)
    decreases v, 2
  {
    if IsFragment(v) then Fit(v) else Resolvable(v)
  }

  // ----- one address, one node -----

  lemma AddressIsNamed(s: string, base: string)
    requires base != ""
    ensures ToLexUri(s, base).Some? <==> HashCount(s) <= 1
    ensures ToLexUri(s, base).Some? ==> Names(s, base, ToLexUri(s, base).value)
  {
    if StartsWith(s, LEX) {
      NotRelative(s);
    }
  }

  lemma {:induction false} UrisAreNamed(items: seq<Json>, base: string)
    requires base != ""
    ensures UrisOf(items, base).Some? <==> forall i :: 0 <= i < |items| ==> Fit(items[i])
    ensures UrisOf(items, base).Some? ==> Named(Arr(items), Arr(UrisOf(items, base).value), base)
  {
    if items != [] {
      UrisAreNamed(items[1..], base);
      if items[0].Str? {
        AddressIsNamed(items[0].s, base);
      }
      assert items == [items[0]] + items[1..];
    }
  }

  lemma {:induction false} SetFieldPlaces(fields: seq<Field>, name: string, value: Json)
    requires Lookup(fields, name).Some?
    ensures var g := SetField(fields, name, value);
            && SameNames(fields, g)
            && forall i :: 0 <= i < |fields| ==>
                 if IsFirst(fields, i, name) then g[i].value == value && fields[i].value == Lookup(fields, name).value
                 else g[i].value == fields[i].value
  {
    if fields[0].name != name {
      var rest, g := fields[1..], SetField(fields, name, value);
      SetFieldPlaces(rest, name, value);
      forall i | 0 < i < |fields|
        ensures g[i] == SetField(rest, name, value)[i - 1] && (IsFirst(fields, i, name) <==> IsFirst(rest, i - 1, name))
      {
        assert rest[i - 1] == fields[i] && forall k :: 0 < k < i ==> fields[k] == rest[k - 1];
      }
      assert !IsFirst(fields, 0, name) && g[0] == fields[0];
    } else {
      assert IsFirst(fields, 0, name) && forall i :: 0 < i < |fields| ==> !IsFirst(fields, i, name);
    }
  }

  /** Rewriting a node as often as it has keys comes to rewriting it once. */
  lemma NodeIsNamed(fields: seq<Field>, base: string)
    requires ValidBase(base) && IsNode(fields)
    ensures var r := Repeated(fields, base, HasType(fields, "ref"), |fields|);
            (r.Some? <==> NodeFit(fields)) && (r.Some? ==> NodeNamed(fields, r.value, base, RefName(fields)))
  {
    var isRef := HasType(fields, "ref");
    OnceIsNamed(fields, base);
    NodeOnce(fields, base, isRef);
    var once := if isRef then RefOnce(fields, base) else RefsOnce(fields, base);
    hide RefOnce, RefsOnce, NodeNamed, NodeFit;
    assert fields != [];
    if once.Some? {
      NodeRepeated(once.value, base, isRef, |fields| - 1);
    }
  }

  lemma OnceIsNamed(fields: seq<Field>, base: string)
    requires ValidBase(base) && IsNode(fields)
    ensures var once := if HasType(fields, "ref") then RefOnce(fields, base) else RefsOnce(fields, base);
            (once.Some? <==> NodeFit(fields)) && (once.Some? ==> NodeNamed(fields, once.value, base, RefName(fields)))
  {
    var was := Lookup(fields, RefName(fields));
    assert base != "";
    if was.Some? && HasType(fields, "ref") && was.value.Str? {
      AddressIsNamed(was.value.s, base);
      var uri := ToLexUri(was.value.s, base);
      if uri.Some? {
        SetFieldPlaces(fields, "ref", Str(uri.value));
      }
    } else if was.Some? && !HasType(fields, "ref") && was.value.Arr? {
      UrisAreNamed(was.value.items, base);
      var uris := UrisOf(was.value.items, base);
      if uris.Some? {
        SetFieldPlaces(fields, "refs", Arr(uris.value));
      }
    }
  }

  // ----- whole trees -----

  /**
   * Resolution throws exactly if some reference that it reaches is missing, no text, or has two hashes. Otherwise
   * every reference becomes the address that it names, and nothing else in the tree changes.
   */
  lemma {:induction false} ResolutionNamesReferences(j: Json, base: string)
    requires ValidBase(base)
    ensures Resolve(j, base).Some? <==> Resolvable(j)
    ensures Resolve(j, base).Some? ==> OnlyRefsNamed(j, Resolve(j, base).value, base)
    decreases j, 1
  {
    hide Repeated, NodeNamed, NodeFit, HasType, Lookup;
    match j
    case Obj(fields) =>
      if IsNode(fields) {
        NodeIsNamed(fields, base);
        NamedKeepsNames(fields, base);
      } else {
        FieldsAreNamed(fields, base);
      }
    case Arr(items) => ElementsAreNamed(items, base);
    case _ =>
  }

  lemma NamedKeepsNames(fields: seq<Field>, base: string)
    ensures forall g :: NodeNamed(fields, g, base, RefName(fields)) ==> SameNames(fields, g)
  {
  }

  lemma {:induction false} ValueIsNamed(v: Json, base: string)
    requires ValidBase(base)
    ensures ResolveValue(v, base).Some? <==> ResolvableIn(v)
    ensures ResolveValue(v, base).Some? ==> OnlyRefsNamedIn(v, ResolveValue(v, base).value, base)
    decreases v, 2
  {
    if v.Arr? {
      ItemsAreNamed(v.items, base);
    } else {
      ResolutionNamesReferences(v, base);
    }
  }

  lemma {:induction false} FieldsAreNamed(fields: seq<Field>, base: string)
    requires ValidBase(base)
    ensures var r := ResolveFields(fields, base);
            && (r.Some? <==> forall i :: 0 <= i < |fields| ==> ResolvableIn(fields[i].value))
            && (r.Some? ==>
                  && SameNames(fields, r.value)
                  && forall i :: 0 <= i < |fields| ==> OnlyRefsNamedIn(fields[i].value, r.value[i].value, base))
    decreases fields, 0
  {
    if fields != [] {
      ValueIsNamed(fields[0].value, base);
      FieldsAreNamed(fields[1..], base);
      assert fields == [fields[0]] + fields[1..];
    }
  }

  lemma {:induction false} ElementsAreNamed(items: seq<Json>, base: string)
    requires ValidBase(base)
    ensures var r := ResolveElements(items, base);
            && (r.Some? <==> forall i :: 0 <= i < |items| ==> ResolvableIn(items[i]))
            && (r.Some? ==> |r.value| == |items|
                            && forall i :: 0 <= i < |items| ==> OnlyRefsNamedIn(items[i], r.value[i], base))
    decreases items, 0
  {
    if items != [] {
      ValueIsNamed(items[0], base);
      ElementsAreNamed(items[1..], base);
      assert items == [items[0]] + items[1..];
    }
  }

  lemma {:induction false} ItemsAreNamed(items: seq<Json>, base: string)
    requires ValidBase(base)
    ensures var r := ResolveItems(items, base);
            && (r.Some? <==> forall i :: 0 <= i < |items| ==> ItemFit(items[i]))
            && (r.Some? ==> |r.value| == |items|
                            && forall i :: 0 <= i < |items| ==> ItemNamed(items[i], r.value[i], base))
    decreases items, 0
  {
    if items != [] {
      var item := items[0];
      ItemsAreNamed(items[1..], base);
      ResolutionNamesReferences(item, base);
      if item.Str? {
        AddressIsNamed(item.s, base);
      }
      hide ToLexUri, OnlyRefsNamed, Resolvable;
      assert items == [item] + items[1..];
    }
  }

  // ----- documents -----

  /**
   * Adding a document fails exactly if its address is taken or a reference in it throws. Otherwise the document is
   * stored with its references named, and its definitions are found under their addresses.
   */
  lemma AddStoresNamedDocs(ix: Index, doc: Doc)
    requires NsidLike(doc.id)
    ensures AddDoc(ix, doc).Some? <==>
            LEX + doc.id !in ix.docs && forall d :: d in doc.defs ==> Resolvable(doc.defs[d])
    ensures AddDoc(ix, doc).Some? ==>
              var uri, t := LEX + doc.id, AddDoc(ix, doc).value;
              && t.docs.Keys == ix.docs.Keys + {uri} && t.docs - {uri} == ix.docs
              && var stored := t.docs[uri];
                 && stored.id == doc.id && stored.defs.Keys == doc.defs.Keys
                 && forall d :: d in doc.defs ==>
                      && OnlyRefsNamed(doc.defs[d], stored.defs[d], uri)
                      && DefUri(doc.id, d) in t.defs && t.defs[DefUri(doc.id, d)] == stored.defs[d]
                      && (d == "main" ==> uri in t.defs && t.defs[uri] == stored.defs[d])
  {
    hide Resolve, Resolvable, OnlyRefsNamed, IterDefs, NsidLike, ToLexUri;
    var uri := LEX + doc.id;
    UriOfNsid(doc.id);
    forall d | d in doc.defs
      ensures Resolve(doc.defs[d], uri).Some? <==> Resolvable(doc.defs[d])
      ensures Resolve(doc.defs[d], uri).Some? ==> OnlyRefsNamed(doc.defs[d], Resolve(doc.defs[d], uri).value, uri)
    {
      ResolutionNamesReferences(doc.defs[d], uri);
    }
    if AddDoc(ix, doc).Some? {
      var stored := AddDoc(ix, doc).value.docs[uri];
      assert stored.id == doc.id;
      forall d | d in stored.defs
        ensures DefUri(doc.id, d) in IterDefs(stored) && IterDefs(stored)[DefUri(doc.id, d)] == stored.defs[d]
      {
        IterDefsYields(stored, DefUri(doc.id, d), stored.defs[d]);
      }
      MainYields(stored);
    }
  }
}
