/**
 * The lexicon index: documents by address, definitions by address, and the resolution of references
 * that runs over a document when it is added.
 */
module LexiconIndex {
  import opened Prelude

  const LEX := "lex:"

  // ----- addresses -----

  function HashCount(s: string): nat {
    if s == "" then 0 else HashCount(s[..|s| - 1]) + if s[|s| - 1] == '#' then 1 else 0
  }

  predicate StartsWith(s: string, prefix: string) {
    |prefix| <= |s| && s[..|prefix|] == prefix
  }

  /** None is an exception. An empty base counts as none. */
  function ToLexUri(s: string, base: string): Option<string> {
    if HashCount(s) > 1 then None
    else if StartsWith(s, LEX) then Some(s)
    else if StartsWith(s, "#") then if base == "" then None else Some(base + s)
    else Some(LEX + s)
  }

  predicate Absolute(s: string) {
    StartsWith(s, LEX) && HashCount(s) <= 1
  }

  predicate ValidBase(base: string) {
    StartsWith(base, LEX) && HashCount(base) == 0
  }

  lemma {:induction false} HashCountAppend(a: string, b: string)
    ensures HashCount(a + b) == HashCount(a) + HashCount(b)
  {
    if b == "" {
      assert a + b == a;
    } else {
      assert (a + b)[..|a + b| - 1] == a + b[..|b| - 1];
      HashCountAppend(a, b[..|b| - 1]);
    }
  }

  lemma {:induction false} HashFree(s: string)
    ensures HashCount(s) == 0 <==> '#' !in s
  {
    if s != "" {
      HashFree(s[..|s| - 1]);
      assert s == s[..|s| - 1] + [s[|s| - 1]];
    }
  }

  lemma HashOfRelative(s: string)
    requires StartsWith(s, "#") && HashCount(s) <= 1
    ensures HashCount(s) == 1
  {
    assert s == "#" + s[1..] && "#"[..0] == "";
    HashCountAppend("#", s[1..]);
    assert HashCount("#") == 1;
  }

  /** A resolved address stays as it is under any base, exactly if it was not hung onto a base that is itself unfit. */
  lemma ResolvedAddressIsStable(s: string, base: string, other: string)
    requires ToLexUri(s, base).Some?
    ensures Absolute(ToLexUri(s, base).value) <==> ToLexUri(ToLexUri(s, base).value, other) == ToLexUri(s, base)
    ensures ValidBase(base) ==> Absolute(ToLexUri(s, base).value)
    ensures StartsWith(s, "#") ==> (Absolute(ToLexUri(s, base).value) <==> ValidBase(base))
  {
    HashFree(LEX);
    HashCountAppend(LEX, s);
    HashCountAppend(base, s);
    if StartsWith(s, "#") {
      HashOfRelative(s);
      assert s[0] == '#' && LEX[0] == 'l';
      assert StartsWith(base, LEX) ==> (base + s)[..4] == base[..4];
    } else {
      assert (LEX + s)[..4] == LEX;
    }
  }

  /** Under a base with a hash the second resolution throws, under one without the scheme it gives another address. */
  lemma UnfitBases(other: string)
    ensures ToLexUri("#c", "lex:a#b") == Some("lex:a#b#c") && ToLexUri("lex:a#b#c", other) == None
    ensures ToLexUri("#c", "a") == Some("a#c") && ToLexUri("a#c", other) == Some("lex:a#c")
  {
    HashedAddress();
    HashCountAppend("a", "#c");
    HashOnce('c');
    HashFree("a");
    assert "a" + "#c" == "a#c" && LEX + "a#c" == "lex:a#c";
    assert "lex:a#b#c" == "lex:a#b" + "#c";
  }

  lemma HashedAddress()
    ensures HashCount("lex:a#b#c") == 2
  {
    HashFree("lex:a");
    HashCountAppend("lex:a", "#b");
    HashCountAppend("lex:a#b", "#c");
    HashOnce('b');
    HashOnce('c');
    assert "lex:a" + "#b" == "lex:a#b" && "lex:a#b" + "#c" == "lex:a#b#c";
  }

  lemma HashOnce(c: char)
    requires c != '#'
    ensures HashCount("#" + [c]) == 1
  {
    assert ("#" + [c])[..1] == "#" && "#"[..0] == "";
    assert HashCount("#") == 1;
  }

  // ----- documents -----

  /** JSON values; the fields of an object keep their order. */
  datatype Json = Str(s: string) | Other(n: int) | Arr(items: seq<Json>) | Obj(fields: seq<Field>)
  datatype Field = Field(name: string, value: Json)

  function Lookup(fields: seq<Field>, name: string): Option<Json> {
    if fields == [] then None else if fields[0].name == name then Some(fields[0].value) else Lookup(fields[1..], name)
  }

  function SetField(fields: seq<Field>, name: string, value: Json): seq<Field> {
    if fields == [] then []
    else if fields[0].name == name then [Field(name, value)] + fields[1..]
    else [fields[0]] + SetField(fields[1..], name, value)
  }

  predicate HasType(fields: seq<Field>, t: string) {
    Lookup(fields, "type") == Some(Str(t))
  }

  /** The reference of a ref node; a missing or non-text reference is an exception. */
  function RefOnce(fields: seq<Field>, base: string): Option<seq<Field>> {
    match Lookup(fields, "ref")
    case Some(Str(s)) =>
      var uri := ToLexUri(s, base);
      if uri.None? then None else Some(SetField(fields, "ref", Str(uri.value)))
    case _ => None
  }

  function UrisOf(items: seq<Json>, base: string): Option<seq<Json>> {
    if items == [] then Some([])
    else if !items[0].Str? then None
    else
      var uri, rest := ToLexUri(items[0].s, base), UrisOf(items[1..], base);
      if uri.None? || rest.None? then None else Some([Str(uri.value)] + rest.value)
  }

  function RefsOnce(fields: seq<Field>, base: string): Option<seq<Field>> {
    match Lookup(fields, "refs")
    case Some(Arr(items)) =>
      var uris := UrisOf(items, base);
      if uris.None? then None else Some(SetField(fields, "refs", Arr(uris.value)))
    case _ => None
  }

  /** A ref or union node is rewritten once for every key it has. */
  function Repeated(fields: seq<Field>, base: string, isRef: bool, times: nat): Option<seq<Field>>
    decreases times
  {
    if times == 0 then Some(fields)
    else
      var once := if isRef then RefOnce(fields, base) else RefsOnce(fields, base);
      if once.None? then None else Repeated(once.value, base, isRef, times - 1)
  }

  function Resolve(j: Json, base: string): Option<Json>
    decreases j, 1
  {
    match j
    case Obj(fields) =>
      if HasType(fields, "ref") || HasType(fields, "union") then
        var r := Repeated(fields, base, HasType(fields, "ref"), |fields|);
        if r.None? then None else Some(Obj(r.value))
      else
        var r := ResolveFields(fields, base);
        if r.None? then None else Some(Obj(r.value))
    case Arr(items) =>
      var r := ResolveElements(items, base);
      if r.None? then None else Some(Arr(r.value))
    case _ => Some(j)
  }

  /** The value under a key: arrays are mapped, objects resolved. */
  function ResolveValue(v: Json, base: string): Option<Json>
    decreases v, 2
  {
    if v.Arr? then
      var r := ResolveItems(v.items, base);
      if r.None? then None else Some(Arr(r.value))
    else Resolve(v, base)
  }

  function ResolveFields(fields: seq<Field>, base: string): Option<seq<Field>>
    decreases fields, 0
  {
    if fields == [] then Some([])
    else
      var v, rest := ResolveValue(fields[0].value, base), ResolveFields(fields[1..], base);
      if v.None? || rest.None? then None else Some([Field(fields[0].name, v.value)] + rest.value)
  }

  /** The mapping of an array under a key: texts that begin with a hash are resolved as well. */
  function ResolveItems(items: seq<Json>, base: string): Option<seq<Json>>
    decreases items, 0
  {
    if items == [] then Some([])
    else
      var item := items[0];
      var uri := if item.Str? && StartsWith(item.s, "#") then ToLexUri(item.s, base) else None;
      var v := if item.Str? && StartsWith(item.s, "#")
               then (if uri.None? then None else Some(Str(uri.value)))
               else Resolve(item, base);
      var rest := ResolveItems(items[1..], base);
      if v.None? || rest.None? then None else Some([v.value] + rest.value)
  }

  /** An array inside an array is treated like an object: its own texts are left alone. */
  function ResolveElements(items: seq<Json>, base: string): Option<seq<Json>>
    decreases items, 0
  {
    if items == [] then Some([])
    else
      var v, rest := ResolveValue(items[0], base), ResolveElements(items[1..], base);
      if v.None? || rest.None? then None else Some([v.value] + rest.value)
  }

  // ----- resolved documents -----

  predicate UrisResolved(items: seq<Json>) {
    forall i :: 0 <= i < |items| ==> items[i].Str? && Absolute(items[i].s)
  }

  predicate NodeResolved(fields: seq<Field>) {
    if HasType(fields, "ref") then
      Lookup(fields, "ref").Some? && Lookup(fields, "ref").value.Str? && Absolute(Lookup(fields, "ref").value.s)
    else
      var refs := Lookup(fields, "refs");
      refs.Some? && refs.value.Arr? && UrisResolved(refs.value.items)
  }

  /** Every ref and union node that the resolution reaches holds absolute addresses, and so do the arrays it maps. */
  predicate Resolved(j: Json)
    decreases j, 1
  {
    match j
    case Obj(fields) =>
      if HasType(fields, "ref") || HasType(fields, "union") then NodeResolved(fields)
      else forall i :: 0 <= i < |fields| ==> ValueResolved(fields[i].value)
    case Arr(items) => forall i :: 0 <= i < |items| ==> ValueResolved(items[i])
    case _ => true
  }

  predicate ValueResolved(v: Json)
    decreases v, 2
  {
    if v.Arr? then
      forall i :: 0 <= i < |v.items| ==>
        (v.items[i].Str? ==> !StartsWith(v.items[i].s, "#")) && Resolved(v.items[i])
    else Resolved(v)
  }

  lemma {:induction false} LookupSet(fields: seq<Field>, name: string, value: Json, other: string)
    requires Lookup(fields, name).Some?
    ensures Lookup(SetField(fields, name, value), other) ==
            if other == name then Some(value) else Lookup(fields, other)
    ensures |SetField(fields, name, value)| == |fields|
    ensures Lookup(fields, name) == Some(value) ==> SetField(fields, name, value) == fields
  {
    if fields[0].name != name {
      LookupSet(fields[1..], name, value, other);
      assert fields == [fields[0]] + fields[1..];
    }
  }

  lemma {:induction false} UrisOfResolved(items: seq<Json>, base: string)
    ensures ValidBase(base) && UrisOf(items, base).Some? ==> UrisResolved(UrisOf(items, base).value)
    ensures UrisResolved(items) ==> UrisOf(items, base) == Some(items)
  {
    if items != [] {
      UrisOfResolved(items[1..], base);
      if items[0].Str? && ToLexUri(items[0].s, base).Some? {
        ResolvedAddressIsStable(items[0].s, base, base);
      }
      assert items == [items[0]] + items[1..];
    }
  }

  /** One rewriting of a node resolves it, and a resolved node is not changed by another. */
  lemma NodeOnce(fields: seq<Field>, base: string, isRef: bool)
    requires isRef == HasType(fields, "ref") && (isRef || HasType(fields, "union"))
    ensures var once := if isRef then RefOnce(fields, base) else RefsOnce(fields, base);
            && (once.Some? ==> |once.value| == |fields| && HasType(once.value, "ref") == isRef
                               && (isRef || HasType(once.value, "union"))
                               && (ValidBase(base) ==> NodeResolved(once.value)))
            && (NodeResolved(fields) ==> once == Some(fields))
  {
    var name := if isRef then "ref" else "refs";
    var once := if isRef then RefOnce(fields, base) else RefsOnce(fields, base);
    if once.Some? {
      var was := Lookup(fields, name);
      if isRef {
        ResolvedAddressIsStable(was.value.s, base, base);
        var v := Str(ToLexUri(was.value.s, base).value);
        LookupSet(fields, name, v, "type");
        LookupSet(fields, name, v, name);
      } else {
        UrisOfResolved(was.value.items, base);
        var v := Arr(UrisOf(was.value.items, base).value);
        LookupSet(fields, name, v, "type");
        LookupSet(fields, name, v, name);
      }
    }
    if NodeResolved(fields) && !isRef {
      UrisOfResolved(Lookup(fields, name).value.items, base);
    }
  }

  lemma {:induction false} NodeRepeated(fields: seq<Field>, base: string, isRef: bool, times: nat)
    requires isRef == HasType(fields, "ref") && (isRef || HasType(fields, "union"))
    ensures var r := Repeated(fields, base, isRef, times);
            && (NodeResolved(fields) ==> r == Some(fields))
            && (ValidBase(base) && times > 0 && r.Some? ==>
                  NodeResolved(r.value) && HasType(r.value, "ref") == isRef && (isRef || HasType(r.value, "union")))
    decreases times
  {
    if times > 0 {
      NodeOnce(fields, base, isRef);
      var once := if isRef then RefOnce(fields, base) else RefsOnce(fields, base);
      if once.Some? {
        NodeRepeated(once.value, base, isRef, times - 1);
        if ValidBase(base) && times == 1 {
          assert Repeated(once.value, base, isRef, 0) == once;
        }
      }
    }
  }

  // ----- resolution over whole trees -----

  lemma {:induction false} ResolveOk(j: Json, base: string)
    ensures ValidBase(base) && Resolve(j, base).Some? ==> Resolved(Resolve(j, base).value)
    ensures Resolved(j) ==> Resolve(j, base) == Some(j)
    decreases j, 1
  {
    match j
    case Obj(fields) =>
      if HasType(fields, "ref") || HasType(fields, "union") {
        NodeRepeated(fields, base, HasType(fields, "ref"), |fields|);
        assert fields != [];
      } else {
        FieldsOk(fields, base);
        if ResolveFields(fields, base).Some? {
          TypeKept(fields, base, "ref");
          TypeKept(fields, base, "union");
        }
      }
    case Arr(items) => ElementsOk(items, base);
    case _ =>
  }

  lemma {:induction false} ValueOk(v: Json, base: string)
    ensures ValidBase(base) && ResolveValue(v, base).Some? ==> ValueResolved(ResolveValue(v, base).value)
    ensures ValueResolved(v) ==> ResolveValue(v, base) == Some(v)
    decreases v, 2
  {
    if v.Arr? {
      ItemsOk(v.items, base);
    } else {
      ResolveOk(v, base);
      ResolveKeepsKind(v, base);
    }
  }

  lemma ResolveKeepsKind(j: Json, base: string)
    ensures var r := Resolve(j, base);
            r.Some? ==> (r.value.Str? <==> j.Str?) && (r.value.Arr? <==> j.Arr?) && (j.Str? ==> r.value == j)
  {
  }

  lemma {:induction false} FieldsOk(fields: seq<Field>, base: string)
    ensures var r := ResolveFields(fields, base);
            && (r.Some? ==> |r.value| == |fields|)
            && (ValidBase(base) && r.Some? ==> forall i :: 0 <= i < |fields| ==> ValueResolved(r.value[i].value))
            && ((forall i :: 0 <= i < |fields| ==> ValueResolved(fields[i].value)) ==> r == Some(fields))
    decreases fields, 0
  {
    if fields != [] {
      ValueOk(fields[0].value, base);
      FieldsOk(fields[1..], base);
      assert fields == [fields[0]] + fields[1..];
      assert (forall i :: 0 <= i < |fields| ==> ValueResolved(fields[i].value)) ==>
          forall i :: 0 <= i < |fields[1..]| ==> ValueResolved(fields[1..][i].value);
    }
  }

  /** Resolving values does not turn an object into a ref or union node. */
  lemma {:induction false} TypeKept(fields: seq<Field>, base: string, t: string)
    requires ResolveFields(fields, base).Some?
    ensures HasType(ResolveFields(fields, base).value, t) <==> HasType(fields, t)
  {
    if fields != [] {
      TypeKept(fields[1..], base, t);
      var v := fields[0].value;
      if !v.Arr? {
        ResolveKeepsKind(v, base);
      }
      var r := ResolveFields(fields, base).value;
      assert r[0] == Field(fields[0].name, ResolveValue(v, base).value);
      assert r[1..] == ResolveFields(fields[1..], base).value;
      assert r[0].value == Str(t) <==> v == Str(t);
    }
  }

  predicate ItemResolved(item: Json) {
    (item.Str? ==> !StartsWith(item.s, "#")) && Resolved(item)
  }

  lemma {:induction false} ItemsOk(items: seq<Json>, base: string)
    ensures var r := ResolveItems(items, base);
            && (r.Some? ==> |r.value| == |items|)
            && (ValidBase(base) && r.Some? ==> forall i :: 0 <= i < |items| ==> ItemResolved(r.value[i]))
            && ((forall i :: 0 <= i < |items| ==> ItemResolved(items[i])) ==> r == Some(items))
    decreases items, 0
  {
    if items != [] {
      var item := items[0];
      ItemsOk(items[1..], base);
      ResolveOk(item, base);
      ResolveKeepsKind(item, base);
      if item.Str? && ToLexUri(item.s, base).Some? && ValidBase(base) {
        ResolvedAddressIsStable(item.s, base, base);
        assert Absolute(ToLexUri(item.s, base).value);
        NotRelative(ToLexUri(item.s, base).value);
      }
      assert items == [item] + items[1..];
      assert (forall i :: 0 <= i < |items| ==> ItemResolved(items[i])) ==>
          forall i :: 0 <= i < |items[1..]| ==> ItemResolved(items[1..][i]);
    }
  }

  lemma NotRelative(s: string)
    requires StartsWith(s, LEX)
    ensures !StartsWith(s, "#")
  {
    assert s[0] == s[..4][0];
  }

  lemma {:induction false} ElementsOk(items: seq<Json>, base: string)
    ensures var r := ResolveElements(items, base);
            && (r.Some? ==> |r.value| == |items|)
            && (ValidBase(base) && r.Some? ==> forall i :: 0 <= i < |items| ==> ValueResolved(r.value[i]))
            && ((forall i :: 0 <= i < |items| ==> ValueResolved(items[i])) ==> r == Some(items))
    decreases items, 0
  {
    if items != [] {
      ValueOk(items[0], base);
      ElementsOk(items[1..], base);
      assert items == [items[0]] + items[1..];
      assert (forall i :: 0 <= i < |items| ==> ValueResolved(items[i])) ==>
          forall i :: 0 <= i < |items[1..]| ==> ValueResolved(items[1..][i]);
    }
  }

  /** Resolution leaves every reference it reaches absolute, and resolving again, under any base, changes nothing. */
  lemma ResolutionIsIdempotent(j: Json, base: string, other: string)
    requires ValidBase(base) && Resolve(j, base).Some?
    ensures Resolved(Resolve(j, base).value)
    ensures Resolve(Resolve(j, base).value, other) == Resolve(j, base)
  {
    ResolveOk(j, base);
    ResolveOk(Resolve(j, base).value, other);
  }

  // ----- the index -----

  datatype Doc = Doc(id: string, defs: map<string, Json>)

  datatype Index = Index(docs: map<string, Doc>, defs: map<string, Json>)

  function DefUri(id: string, defId: string): string {
    LEX + id + "#" + defId
  }

  lemma DefUriInjective(id: string, a: string, b: string)
    requires DefUri(id, a) == DefUri(id, b)
    ensures a == b
  {
    var n := |LEX + id + "#"|;
    assert DefUri(id, a)[n..] == a && DefUri(id, b)[n..] == b;
  }

  /** What `iterDefs` yields: every definition, and `main` also under the address of the document. */
  function IterDefs(doc: Doc): map<string, Json> {
    assert forall a, b :: DefUri(doc.id, a) == DefUri(doc.id, b) ==> a == b by {
      forall a, b | DefUri(doc.id, a) == DefUri(doc.id, b) ensures a == b {
        DefUriInjective(doc.id, a, b);
      }
    }
    (map d | d in doc.defs.Keys :: DefUri(doc.id, d) := doc.defs[d])
    + (if "main" in doc.defs then map[LEX + doc.id := doc.defs["main"]] else map[])
  }

  /** The definitions of a document after resolution; None if one of them throws. */
  function ResolveDefs(defs: map<string, Json>, base: string): Option<map<string, Json>> {
    if forall d :: d in defs.Keys ==> Resolve(defs[d], base).Some?
    then Some(map d | d in defs.Keys :: Resolve(defs[d], base).value)
    else None
  }

  /** None is an exception; the index then stays as it was. */
  function AddDoc(ix: Index, doc: Doc): Option<Index> {
    var uri := ToLexUri(doc.id, "");
    if uri.None? || uri.value in ix.docs then None
    else
      var defs := ResolveDefs(doc.defs, uri.value);
      if defs.None? then None
      else Some(Index(ix.docs[uri.value := Doc(doc.id, defs.value)], ix.defs + IterDefs(Doc(doc.id, defs.value))))
  }

  function RemoveDoc(ix: Index, uri: string): Option<Index> {
    var u := ToLexUri(uri, "");
    if u.None? || u.value !in ix.docs then None
    else Some(Index(ix.docs - {u.value}, ix.defs - IterDefs(ix.docs[u.value]).Keys))
  }

  function Part(doc: Doc, keys: set<string>): Doc {
    doc.(defs := map d | d in doc.defs.Keys && d in keys :: doc.defs[d])
  }

  /** What the iteration yields under an address. */
  ghost predicate Yields(doc: Doc, x: string, def: Json) {
    || (exists d :: d in doc.defs && x == DefUri(doc.id, d) && def == doc.defs[d])
    || ("main" in doc.defs && x == LEX + doc.id && def == doc.defs["main"])
  }

  lemma MainHasNoHash(id: string, d: string)
    ensures DefUri(id, d) != LEX + id
  {
    assert |DefUri(id, d)| > |LEX + id|;
  }

  lemma IterDefsYields(doc: Doc, x: string, def: Json)
    ensures x in IterDefs(doc) && IterDefs(doc)[x] == def <==> Yields(doc, x, def)
  {
    forall a, b | DefUri(doc.id, a) == DefUri(doc.id, b) ensures a == b {
      DefUriInjective(doc.id, a, b);
    }
    forall d | d in doc.defs ensures DefUri(doc.id, d) != LEX + doc.id {
      MainHasNoHash(doc.id, d);
    }
  }

  /** One more definition of a document in the iteration. */
  lemma PartSnoc(doc: Doc, keys: set<string>, d: string)
    requires d in doc.defs && d !in keys
    ensures IterDefs(Part(doc, keys + {d})) == IterDefs(Part(doc, keys)) + OneDef(doc, d)
  {
    hide IterDefs, Yields, Part, OneDef;
    var a, b, c := IterDefs(Part(doc, keys + {d})), IterDefs(Part(doc, keys)), OneDef(doc, d);
    forall x ensures (x in a <==> x in b + c) && (x in a ==> a[x] == (b + c)[x]) {
      if x in a {
        IterDefsYields(Part(doc, keys + {d}), x, a[x]);
        IterDefsYields(Part(doc, keys), x, a[x]);
        PartYields(doc, keys, d, x, a[x]);
      }
      if x in b + c {
        IterDefsYields(Part(doc, keys + {d}), x, (b + c)[x]);
        IterDefsYields(Part(doc, keys), x, (b + c)[x]);
        PartYields(doc, keys, d, x, (b + c)[x]);
      }
    }
  }

  function OneDef(doc: Doc, d: string): map<string, Json>
    requires d in doc.defs
  {
    map[DefUri(doc.id, d) := doc.defs[d]] + (if d == "main" then map[LEX + doc.id := doc.defs[d]] else map[])
  }

  lemma PartYields(doc: Doc, keys: set<string>, d: string, x: string, def: Json)
    requires d in doc.defs && d !in keys
    ensures Yields(Part(doc, keys + {d}), x, def) <==>
            (x in OneDef(doc, d) && OneDef(doc, d)[x] == def)
            || (x !in OneDef(doc, d) && Yields(Part(doc, keys), x, def))
  {
    MainHasNoHash(doc.id, d);
    if k :| k in Part(doc, keys + {d}).defs && x == DefUri(doc.id, k) {
      MainHasNoHash(doc.id, k);
      if x == DefUri(doc.id, d) {
        DefUriInjective(doc.id, k, d);
      }
    }
    if x == DefUri(doc.id, d) {
      forall k | x == DefUri(doc.id, k) ensures k == d {
        DefUriInjective(doc.id, k, d);
      }
      assert d in Part(doc, keys + {d}).defs;
    }
  }

  class Lexicons {
    var docs: map<string, Doc>
    var defs: map<string, Json>

    function View(): Index
      reads this
    {
      Index(docs, defs)
    }

    constructor ()
      ensures View() == Index(map[], map[])
    {
      docs, defs := map[], map[];
    }

    /** False is the exception. */
    method Add(doc: Doc) returns (ok: bool)
      modifies this
      ensures var r := AddDoc(old(View()), doc);
              ok == r.Some? && View() == if ok then r.value else old(View())
    {
      hide IterDefs, Resolve;
      var uri := ToLexUri(doc.id, "");
      if uri.None? || uri.value in docs {
        return false;
      }
      var resolved := ResolveDefs(doc.defs, uri.value);
      if resolved.None? {
        return false;
      }
      docs := docs[uri.value := Doc(doc.id, resolved.value)];
      StoreDefs(Doc(doc.id, resolved.value));
      ok := true;
    }

    method StoreOne(stored: Doc, d: string)
      requires d in stored.defs
      modifies this`defs
      ensures defs == old(defs) + OneDef(stored, d)
    {
      defs := defs[DefUri(stored.id, d) := stored.defs[d]];
      if d == "main" {
        defs := defs[LEX + stored.id := stored.defs[d]];
      }
    }

    /** The loop over `iterDefs`. */
    method StoreDefs(stored: Doc)
      modifies this`defs
      ensures defs == old(defs) + IterDefs(stored)
    {
      hide IterDefs, OneDef;
      var todo := stored.defs.Keys;
      EmptyPart(stored);
      assert stored.defs.Keys - todo == {};
      while todo != {}
        invariant todo <= stored.defs.Keys
        invariant defs == old(defs) + IterDefs(Part(stored, stored.defs.Keys - todo))
        decreases todo
      {
        var d :| d in todo;
        PartSnoc(stored, stored.defs.Keys - todo, d);
        assert stored.defs.Keys - (todo - {d}) == stored.defs.Keys - todo + {d};
        StoreOne(stored, d);
        todo := todo - {d};
      }
      assert stored.defs.Keys - todo == stored.defs.Keys;
      assert Part(stored, stored.defs.Keys) == stored;
    }

    lemma EmptyPart(doc: Doc)
      ensures IterDefs(Part(doc, {})) == map[]
    {
    }

    method Remove(uri: string) returns (ok: bool)
      modifies this
      ensures var r := RemoveDoc(old(View()), uri);
              ok == r.Some? && View() == if ok then r.value else old(View())
    {
      hide IterDefs;
      var u := ToLexUri(uri, "");
      if u.None? || u.value !in docs {
        return false;
      }
      var doc := docs[u.value];
      var todo := doc.defs.Keys;
      EmptyPart(doc);
      assert doc.defs.Keys - todo == {};
      while todo != {}
        invariant todo <= doc.defs.Keys
        invariant defs == old(defs) - IterDefs(Part(doc, doc.defs.Keys - todo)).Keys
        decreases todo
        modifies this`defs
      {
        var d :| d in todo;
        PartSnoc(doc, doc.defs.Keys - todo, d);
        assert doc.defs.Keys - (todo - {d}) == doc.defs.Keys - todo + {d};
        defs := defs - {DefUri(doc.id, d)};
        if d == "main" {
          defs := defs - {LEX + doc.id};
        }
        todo := todo - {d};
      }
      assert doc.defs.Keys - todo == doc.defs.Keys;
      assert Part(doc, doc.defs.Keys) == doc;
      docs := docs - {u.value};
      ok := true;
    }

    method GetDef(uri: string) returns (def: Option<Json>)
      ensures var u := ToLexUri(uri, "");
              def == if u.Some? && u.value in defs then Some(defs[u.value]) else None
      ensures Agrees(View()) ==> def == DefNamed(View(), uri)
      ensures Agrees(View()) && NsidLike(uri) ==>
                def == if LEX + uri in docs && "main" in docs[LEX + uri].defs
                       then Some(docs[LEX + uri].defs["main"]) else None
    {
      if Agrees(View()) {
        LookupFinds(View(), uri);
        if NsidLike(uri) {
          MainIsNamed(View(), uri);
        }
      }
      var u := ToLexUri(uri, "");
      def := if u.Some? && u.value in defs then Some(defs[u.value]) else None;
    }
  }

  // ----- what the operations keep -----

  /** As far as the index goes, an NSID: neither a hash nor the scheme occurs in it. */
  predicate NsidLike(id: string) {
    HashCount(id) == 0 && !StartsWith(id, LEX)
  }

  ghost predicate DocOk(u: string, doc: Doc) {
    u == LEX + doc.id && NsidLike(doc.id) && forall d :: d in doc.defs ==> Resolved(doc.defs[d])
  }

  /** The definitions are exactly those of the documents, and the documents are resolved. */
  ghost predicate Agrees(ix: Index) {
    && (forall u :: u in ix.docs ==> DocOk(u, ix.docs[u]))
    && (forall u, x :: u in ix.docs && x in IterDefs(ix.docs[u]) ==>
          x in ix.defs && ix.defs[x] == IterDefs(ix.docs[u])[x])
    && (forall x :: x in ix.defs ==> exists u :: u in ix.docs && x in IterDefs(ix.docs[u]))
  }

  function UpToHash(s: string): string {
    if s == "" || s[0] == '#' then "" else [s[0]] + UpToHash(s[1..])
  }

  lemma {:induction false} UpToHashAppend(a: string, b: string)
    requires '#' !in a
    ensures UpToHash(a + b) == a + UpToHash(b)
  {
    if a == "" {
      assert a + b == b;
    } else {
      assert (a + b)[1..] == a[1..] + b;
      UpToHashAppend(a[1..], b);
    }
  }

  /** A definition's address names its document. */
  lemma DocOfDef(doc: Doc, x: string)
    requires NsidLike(doc.id) && x in IterDefs(doc)
    ensures UpToHash(x) == LEX + doc.id
  {
    HashFree(doc.id);
    if d :| d in doc.defs && x == DefUri(doc.id, d) {
      assert x == (LEX + doc.id) + ("#" + d);
      UpToHashAppend(LEX + doc.id, "#" + d);
    } else {
      assert x == (LEX + doc.id) + "";
      UpToHashAppend(LEX + doc.id, "");
    }
  }

  lemma UriOfNsid(id: string)
    requires NsidLike(id)
    ensures ToLexUri(id, "") == Some(LEX + id) && ValidBase(LEX + id)
  {
    HashFree(id);
    HashFree(LEX + id);
    assert (LEX + id)[..4] == LEX;
    assert id != "" ==> id[0] in id;
  }

  /** The definition that the documents give an address: that of the document named before the hash. */
  ghost function DefNamed(ix: Index, uri: string): Option<Json> {
    var u := ToLexUri(uri, "");
    if u.Some? && UpToHash(u.value) in ix.docs && u.value in IterDefs(ix.docs[UpToHash(u.value)])
    then Some(IterDefs(ix.docs[UpToHash(u.value)])[u.value]) else None
  }

  /** On an index that agrees with its documents, looking up the definitions is asking the document. */
  lemma LookupFinds(ix: Index, uri: string)
    requires Agrees(ix)
    ensures var u := ToLexUri(uri, "");
            DefNamed(ix, uri) == if u.Some? && u.value in ix.defs then Some(ix.defs[u.value]) else None
  {
    hide IterDefs, ToLexUri, Resolved;
    var u := ToLexUri(uri, "");
    if u.Some? && u.value in ix.defs {
      var d :| d in ix.docs && u.value in IterDefs(ix.docs[d]);
      assert DocOk(d, ix.docs[d]);
      DocOfDef(ix.docs[d], u.value);
    }
  }

  /** The address of a document is that of its main definition. */
  lemma MainIsNamed(ix: Index, id: string)
    requires Agrees(ix) && NsidLike(id)
    ensures DefNamed(ix, id) == if LEX + id in ix.docs && "main" in ix.docs[LEX + id].defs
                                then Some(ix.docs[LEX + id].defs["main"]) else None
  {
    hide IterDefs, Resolved;
    UriOfNsid(id);
    HashFree(id);
    UpToHashAppend(LEX + id, "");
    assert LEX + id + "" == LEX + id;
    if LEX + id in ix.docs {
      var doc := ix.docs[LEX + id];
      assert DocOk(LEX + id, doc);
      assert doc.id == (LEX + doc.id)[4..] == (LEX + id)[4..] == id;
      MainYields(doc);
    }
  }

  lemma MainYields(doc: Doc)
    ensures LEX + doc.id in IterDefs(doc) <==> "main" in doc.defs
    ensures "main" in doc.defs ==> IterDefs(doc)[LEX + doc.id] == doc.defs["main"]
  {
    var x := LEX + doc.id;
    forall d ensures DefUri(doc.id, d) != x {
      MainHasNoHash(doc.id, d);
    }
    if "main" in doc.defs {
      IterDefsYields(doc, x, doc.defs["main"]);
    }
    if x in IterDefs(doc) {
      IterDefsYields(doc, x, IterDefs(doc)[x]);
    }
  }

  /** Documents at different addresses define different things. */
  lemma DefsApart(ix: Index, doc: Doc)
    requires Agrees(ix) && NsidLike(doc.id) && LEX + doc.id !in ix.docs
    ensures ix.defs.Keys !! IterDefs(doc).Keys
  {
    hide IterDefs, Resolved;
    forall x | x in ix.defs && x in IterDefs(doc) ensures false {
      var u :| u in ix.docs && x in IterDefs(ix.docs[u]);
      DocOfDef(ix.docs[u], x);
      DocOfDef(doc, x);
    }
  }

  lemma StoredOk(doc: Doc, stored: Doc)
    requires NsidLike(doc.id) && stored.id == doc.id && stored.defs.Keys == doc.defs.Keys
    requires forall d :: d in doc.defs ==>
               Resolve(doc.defs[d], LEX + doc.id).Some? && stored.defs[d] == Resolve(doc.defs[d], LEX + doc.id).value
    ensures DocOk(LEX + doc.id, stored)
  {
    UriOfNsid(doc.id);
    forall d | d in stored.defs ensures Resolved(stored.defs[d]) {
      ResolveOk(doc.defs[d], LEX + doc.id);
    }
  }

  lemma UnionAgrees(ix: Index, uri: string, stored: Doc)
    requires Agrees(ix) && uri !in ix.docs && DocOk(uri, stored) && ix.defs.Keys !! IterDefs(stored).Keys
    ensures Agrees(Index(ix.docs[uri := stored], ix.defs + IterDefs(stored)))
  {
    hide IterDefs, DocOk;
    var ix' := Index(ix.docs[uri := stored], ix.defs + IterDefs(stored));
    forall x | x in ix'.defs ensures exists u :: u in ix'.docs && x in IterDefs(ix'.docs[u]) {
      if x in IterDefs(stored) {
        assert uri in ix'.docs && ix'.docs[uri] == stored;
      } else {
        var u :| u in ix.docs && x in IterDefs(ix.docs[u]);
        assert ix'.docs[u] == ix.docs[u];
      }
    }
  }

  lemma AddKeepsAgreement(ix: Index, doc: Doc)
    requires Agrees(ix) && NsidLike(doc.id) && AddDoc(ix, doc).Some?
    ensures Agrees(AddDoc(ix, doc).value)
    ensures ix.defs.Keys !! IterDefs(AddDoc(ix, doc).value.docs[LEX + doc.id]).Keys
  {
    hide IterDefs, DocOk, Agrees, Resolve, NsidLike;
    UriOfNsid(doc.id);
    var uri := LEX + doc.id;
    var stored := AddDoc(ix, doc).value.docs[uri];
    StoredOk(doc, stored);
    DefsApart(ix, stored);
    UnionAgrees(ix, uri, stored);
  }

  lemma RemoveKeepsAgreement(ix: Index, uri: string)
    requires Agrees(ix) && RemoveDoc(ix, uri).Some?
    ensures Agrees(RemoveDoc(ix, uri).value)
  {
    hide IterDefs;
    var ix', gone := RemoveDoc(ix, uri).value, ToLexUri(uri, "").value;
    forall u, x | u in ix'.docs && x in IterDefs(ix'.docs[u])
      ensures x in ix'.defs && ix'.defs[x] == IterDefs(ix'.docs[u])[x]
    {
      DocOfDef(ix.docs[u], x);
      if x in IterDefs(ix.docs[gone]) {
        DocOfDef(ix.docs[gone], x);
      }
    }
    forall x | x in ix'.defs ensures exists u :: u in ix'.docs && x in IterDefs(ix'.docs[u]) {
      var u :| u in ix.docs && x in IterDefs(ix.docs[u]);
      assert u != gone && u in ix'.docs && ix'.docs[u] == ix.docs[u];
    }
  }

  // ----- main results -----

  datatype Op = AddOp(doc: Doc) | RemoveOp(uri: string)

  /** An operation that throws leaves the index as it was. */
  function Perform(ix: Index, op: Op): Index {
    var r := match op case AddOp(doc) => AddDoc(ix, doc) case RemoveOp(uri) => RemoveDoc(ix, uri);
    if r.None? then ix else r.value
  }

  function PerformAll(ops: seq<Op>): Index {
    if ops == [] then Index(map[], map[]) else Perform(PerformAll(ops[..|ops| - 1]), ops[|ops| - 1])
  }

  /** After any run on documents with NSIDs, the definitions are the union of those of the documents. */
  lemma {:induction false} DefsAreThoseOfTheDocs(ops: seq<Op>)
    requires forall op :: op in ops && op.AddOp? ==> NsidLike(op.doc.id)
    ensures Agrees(PerformAll(ops))
  {
    hide IterDefs, AddDoc, RemoveDoc;
    if ops != [] {
      var front, op := ops[..|ops| - 1], ops[|ops| - 1];
      forall o | o in front ensures o in ops {}
      DefsAreThoseOfTheDocs(front);
      var ix := PerformAll(front);
      if op.AddOp? && AddDoc(ix, op.doc).Some? {
        AddKeepsAgreement(ix, op.doc);
      } else if op.RemoveOp? && RemoveDoc(ix, op.uri).Some? {
        RemoveKeepsAgreement(ix, op.uri);
      }
    }
  }

  /** Removing a document that was just added restores both maps. */
  lemma RemoveUndoesAdd(ix: Index, doc: Doc)
    requires Agrees(ix) && NsidLike(doc.id) && AddDoc(ix, doc).Some?
    ensures RemoveDoc(AddDoc(ix, doc).value, doc.id) == Some(ix)
  {
    hide IterDefs;
    AddKeepsAgreement(ix, doc);
    UriOfNsid(doc.id);
    var ix' := AddDoc(ix, doc).value;
    var more := IterDefs(ix'.docs[LEX + doc.id]);
    assert ix'.docs - {LEX + doc.id} == ix.docs;
    assert (ix.defs + more) - more.Keys == ix.defs;
  }

  function DocsOf(order: seq<Doc>): map<string, Doc> {
    if order == [] then map[] else DocsOf(order[..|order| - 1])[LEX + order[|order| - 1].id := order[|order| - 1]]
  }

  ghost predicate NoRepeat(order: seq<Doc>) {
    order == [] || (NoRepeat(order[..|order| - 1]) && LEX + order[|order| - 1].id !in DocsOf(order[..|order| - 1]))
  }

  /** `new Lexicons(docs)`; None is an exception. */
  function AddAll(order: seq<Doc>): Option<Index> {
    if order == [] then Some(Index(map[], map[]))
    else
      var ix := AddAll(order[..|order| - 1]);
      if ix.None? then None else AddDoc(ix.value, order[|order| - 1])
  }

  lemma ResolvedDefsStay(doc: Doc, base: string)
    requires forall d :: d in doc.defs ==> Resolved(doc.defs[d])
    ensures ResolveDefs(doc.defs, base) == Some(doc.defs)
  {
    forall d | d in doc.defs ensures Resolve(doc.defs[d], base) == Some(doc.defs[d]) {
      ResolveOk(doc.defs[d], base);
    }
    assert ResolveDefs(doc.defs, base).value == doc.defs;
  }

  lemma {:induction false} CloneBuilds(order: seq<Doc>)
    requires NoRepeat(order) && forall u :: u in DocsOf(order) ==> DocOk(u, DocsOf(order)[u])
    ensures AddAll(order).Some? && Agrees(AddAll(order).value) && AddAll(order).value.docs == DocsOf(order)
  {
    hide IterDefs, Resolve;
    if order != [] {
      var front, doc := order[..|order| - 1], order[|order| - 1];
      var uri := LEX + doc.id;
      forall u | u in DocsOf(front) ensures DocOk(u, DocsOf(front)[u]) {
        assert u != uri && DocsOf(order)[u] == DocsOf(front)[u];
      }
      CloneBuilds(front);
      assert DocOk(uri, DocsOf(order)[uri]);
      UriOfNsid(doc.id);
      ResolvedDefsStay(doc, uri);
      AddKeepsAgreement(AddAll(front).value, doc);
    }
  }

  lemma DefsAreDetermined(a: Index, b: Index)
    requires Agrees(a) && Agrees(b) && a.docs == b.docs
    ensures a == b
  {
    hide IterDefs, DocOk;
    forall x ensures (x in a.defs <==> x in b.defs) && (x in a.defs ==> a.defs[x] == b.defs[x]) {
      if x in a.defs {
        var u :| u in a.docs && x in IterDefs(a.docs[u]);
      }
      if x in b.defs {
        var u :| u in b.docs && x in IterDefs(b.docs[u]);
      }
    }
    assert a.defs == b.defs;
  }

  /** A clone, built from the documents in any order, is the same index. */
  lemma CloneIsUnchanged(ix: Index, order: seq<Doc>)
    requires Agrees(ix) && NoRepeat(order) && DocsOf(order) == ix.docs
    ensures AddAll(order) == Some(ix)
  {
    hide IterDefs, AddDoc;
    CloneBuilds(order);
    DefsAreDetermined(AddAll(order).value, ix);
  }
}
