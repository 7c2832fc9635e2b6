/**
 * backend/intelligence/query_layer.py: indexes over a repository model and the
 * queries that use them. A Python dict is its items in insertion order.
 */
module QueryLayer {
  import opened Basics

  datatype EntityType = Function | Class | File | Directory | Route | OtherEntity

  /** `moduleKey` and `fileKey` are the metadata entries, or the path when they are missing. */
  datatype Entity = Entity(
    kind: EntityType, name: string, moduleKey: string, fileKey: string, path: string, line: nat,
    routePath: Option<string>, httpMethod: Option<string>)

  datatype RelType = Calls | Imports | DependsOn | Uses | Inherits | Implements | OtherRel

  datatype Relationship = Relationship(kind: RelType, source: string, target: string)

  type Entities = seq<(string, Entity)>

  predicate DistinctIds(es: Entities) {
    forall i, j :: 0 <= i < j < |es| ==> es[i].0 != es[j].0
  }

  // ------------------------------------------------------------- the scans

  /** The four entity indexes: functions by name and by module, classes by name and by file. */
  datatype Which = FunctionsByName | FunctionsByModule | ClassesByName | ClassesByFile

  predicate Applies(e: Entity, which: Which) {
    e.kind == if which in {FunctionsByName, FunctionsByModule} then Function else Class
  }

  function KeyText(e: Entity, which: Which): string {
    match which
    case FunctionsByName | ClassesByName => e.name
    case FunctionsByModule => e.moduleKey
    case ClassesByFile => e.fileKey
  }

  predicate Matches(e: Entity, which: Which, key: string) {
    Applies(e, which) && KeyText(e, which) == key
  }

  /** Ids of those of the first `n` entities that match, in order. */
  function ScanIds(es: Entities, n: nat, which: Which, key: string): seq<string>
    requires n <= |es|
  {
    if n == 0 then []
    else ScanIds(es, n - 1, which, key) + (if Matches(es[n - 1].1, which, key) then [es[n - 1].0] else [])
  }

  /** The entities themselves. */
  function Scan(es: Entities, n: nat, which: Which, key: string): seq<Entity>
    requires n <= |es|
  {
    if n == 0 then []
    else Scan(es, n - 1, which, key) + (if Matches(es[n - 1].1, which, key) then [es[n - 1].1] else [])
  }

  /** get_calls, get_dependencies, get_imports, ...: what `source` points to, among the first `n` relationships. */
  function Forward(rs: seq<Relationship>, n: nat, kind: RelType, source: string): seq<string>
    requires n <= |rs|
  {
    if n == 0 then []
    else
      var r := rs[n - 1];
      Forward(rs, n - 1, kind, source) + (if r.kind == kind && r.source == source then [r.target] else [])
  }

  /** get_called_by, get_depended_by, get_imported_by, ...: what points to `target`. */
  function Backward(rs: seq<Relationship>, n: nat, kind: RelType, target: string): seq<string>
    requires n <= |rs|
  {
    if n == 0 then []
    else
      var r := rs[n - 1];
      Backward(rs, n - 1, kind, target) + (if r.kind == kind && r.target == target then [r.source] else [])
  }

  lemma {:induction false} ForwardCounts(rs: seq<Relationship>, n: nat, kind: RelType, source: string, target: string)
    requires n <= |rs|
    ensures Count(Forward(rs, n, kind, source), target) == Count(rs[..n], Relationship(kind, source, target))
  {
    if n == 0 {
      assert rs[..0] == [];
    } else {
      var r, f := rs[n - 1], Forward(rs, n - 1, kind, source);
      ForwardCounts(rs, n - 1, kind, source, target);
      assert rs[..n] == rs[..n - 1] + [r];
      CountAppend(rs[..n - 1], r, Relationship(kind, source, target));
      if r.kind == kind && r.source == source {
        CountAppend(f, r.target, target);
      } else {
        assert Forward(rs, n, kind, source) == f;
      }
    }
  }

  lemma {:induction false} BackwardCounts(rs: seq<Relationship>, n: nat, kind: RelType, source: string, target: string)
    requires n <= |rs|
    ensures Count(Backward(rs, n, kind, target), source) == Count(rs[..n], Relationship(kind, source, target))
  {
    if n == 0 {
      assert rs[..0] == [];
    } else {
      var r, b := rs[n - 1], Backward(rs, n - 1, kind, target);
      BackwardCounts(rs, n - 1, kind, source, target);
      assert rs[..n] == rs[..n - 1] + [r];
      CountAppend(rs[..n - 1], r, Relationship(kind, source, target));
      if r.kind == kind && r.target == target {
        CountAppend(b, r.source, source);
      } else {
        assert Backward(rs, n, kind, target) == b;
      }
    }
  }

  /** The two directions are duals: each lists the other end as often as there are such relationships. */
  lemma ForwardBackwardDual(rs: seq<Relationship>, kind: RelType, source: string, target: string)
    ensures Count(Forward(rs, |rs|, kind, source), target) == Count(Backward(rs, |rs|, kind, target), source)
            == Count(rs, Relationship(kind, source, target))
  {
    ForwardCounts(rs, |rs|, kind, source, target);
    BackwardCounts(rs, |rs|, kind, source, target);
    assert rs[..|rs|] == rs;
  }

  /** `id` is an entity that `which` applies to and that has this key. */
  predicate HasKey(es: Entities, which: Which, key: string, id: string) {
    exists i :: 0 <= i < |es| && es[i].0 == id && Matches(es[i].1, which, key)
  }

  lemma {:induction false} ScanIdsMembers(es: Entities, n: nat, which: Which, key: string, id: string)
    requires n <= |es|
    ensures id in ScanIds(es, n, which, key)
            <==> exists i :: 0 <= i < n && es[i].0 == id && Matches(es[i].1, which, key)
  {
    if n > 0 {
      ScanIdsMembers(es, n - 1, which, key, id);
      if exists i :: 0 <= i < n && es[i].0 == id && Matches(es[i].1, which, key) {
        var i :| 0 <= i < n && es[i].0 == id && Matches(es[i].1, which, key);
        assert i == n - 1 || i < n - 1;
      }
    }
  }

  lemma {:induction false} ScanIdsDistinct(es: Entities, n: nat, which: Which, key: string)
    requires n <= |es| && DistinctIds(es)
    ensures NoRepeats(ScanIds(es, n, which, key))
  {
    if n > 0 {
      ScanIdsDistinct(es, n - 1, which, key);
      ScanIdsMembers(es, n - 1, which, key, es[n - 1].0);
    }
  }

  // ----------------------------------------------------- ordered dictionaries

  /** A dict from names to lists: its keys in the order of their first use, and its values. */
  datatype Index = Index(keys: seq<string>, lists: map<string, seq<string>>)

  const EMPTY_INDEX := Index([], map[])

  /** idx.get(key, []). */
  function Get<K>(lists: map<K, seq<string>>, key: K): seq<string> {
    if key in lists then lists[key] else []
  }

  /** idx.setdefault(key, []).append(id). */
  function Append(idx: Index, key: string, id: string): Index {
    Index(if key in idx.lists then idx.keys else idx.keys + [key],
          idx.lists[key := Get(idx.lists, key) + [id]])
  }

  ghost predicate GoodIndex(idx: Index) {
    && NoRepeats(idx.keys)
    && (forall k :: k in idx.keys <==> k in idx.lists)
    && (forall k :: k in idx.lists ==> idx.lists[k] != [])
  }

  /** The keys of the first `n` entities, in the order of their first use. */
  function KeysUsed(es: Entities, n: nat, which: Which): seq<string>
    requires n <= |es|
  {
    if n == 0 then []
    else
      var before, e := KeysUsed(es, n - 1, which), es[n - 1].1;
      if Applies(e, which) && KeyText(e, which) !in before then before + [KeyText(e, which)] else before
  }

  predicate UsedBefore(es: Entities, n: nat, which: Which, key: string)
    requires n <= |es|
  {
    exists i :: 0 <= i < n && Matches(es[i].1, which, key)
  }

  /** Each key that is used, once. */
  lemma {:induction false} KeysUsedMeaning(es: Entities, n: nat, which: Which)
    requires n <= |es|
    ensures NoRepeats(KeysUsed(es, n, which))
    ensures forall key :: key in KeysUsed(es, n, which) <==> UsedBefore(es, n, which, key)
  {
    if n > 0 {
      KeysUsedMeaning(es, n - 1, which);
      forall key ensures UsedBefore(es, n, which, key) <==>
                           UsedBefore(es, n - 1, which, key) || Matches(es[n - 1].1, which, key)
      {
        if UsedBefore(es, n, which, key) {
          var i :| 0 <= i < n && Matches(es[i].1, which, key);
          assert i < n - 1 || i == n - 1;
        }
      }
    }
  }

  /** Wherever a key is used, every key listed before it has been used earlier. */
  lemma {:induction false} KeysUsedOrder(es: Entities, n: nat, which: Which, i: nat, j: nat, b: nat)
    requires n <= |es| && i < j < |KeysUsed(es, n, which)|
    requires b < n && Matches(es[b].1, which, KeysUsed(es, n, which)[j])
    ensures UsedBefore(es, b, which, KeysUsed(es, n, which)[i])
  {
    var before, after := KeysUsed(es, n - 1, which), KeysUsed(es, n, which);
    assert after[i] == before[i];
    KeysUsedMeaning(es, n - 1, which);
    assert b < n - 1 ==> UsedBefore(es, n - 1, which, after[j]);
    if j < |before| && b < n - 1 {
      KeysUsedOrder(es, n - 1, which, i, j, b);
    }
  }

  /** The index agrees with scans of the first `n` entities. */
  ghost predicate IndexOk(idx: Index, es: Entities, n: nat, which: Which)
    requires n <= |es|
  {
    GoodIndex(idx) && idx.keys == KeysUsed(es, n, which) && forall key :: Get(idx.lists, key) == ScanIds(es, n, which, key)
  }

  /** One entity goes into the indexes that apply to it. */
  function Indexed(idx: Index, item: (string, Entity), which: Which): Index {
    if Applies(item.1, which) then Append(idx, KeyText(item.1, which), item.0) else idx
  }

  lemma IndexOkStep(idx: Index, es: Entities, n: nat, which: Which)
    requires n < |es| && IndexOk(idx, es, n, which)
    ensures IndexOk(Indexed(idx, es[n], which), es, n + 1, which)
  {
    var after := Indexed(idx, es[n], which);
    forall key ensures Get(after.lists, key) == ScanIds(es, n + 1, which, key) {
      assert Get(idx.lists, key) == ScanIds(es, n, which, key);
      assert ScanIds(es, n, which, key) + [] == ScanIds(es, n, which, key);
    }
  }

  ghost predicate ReverseOk(reverse: map<(RelType, string), seq<string>>, rs: seq<Relationship>, n: nat)
    requires n <= |rs|
  {
    forall kind, target :: Get(reverse, (kind, target)) == Backward(rs, n, kind, target)
  }

  /** One relationship goes into the reverse index. */
  function Reversed(reverse: map<(RelType, string), seq<string>>, r: Relationship): map<(RelType, string), seq<string>> {
    reverse[(r.kind, r.target) := Get(reverse, (r.kind, r.target)) + [r.source]]
  }

  lemma ReverseOkStep(reverse: map<(RelType, string), seq<string>>, rs: seq<Relationship>, n: nat)
    requires n < |rs| && ReverseOk(reverse, rs, n)
    ensures ReverseOk(Reversed(reverse, rs[n]), rs, n + 1)
  {
    var after := Reversed(reverse, rs[n]);
    forall kind, target ensures Get(after, (kind, target)) == Backward(rs, n + 1, kind, target) {
      assert Get(reverse, (kind, target)) == Backward(rs, n, kind, target);
      assert Backward(rs, n, kind, target) + [] == Backward(rs, n, kind, target);
    }
  }

  lemma EmptyIsOk(es: Entities)
    ensures forall which :: IndexOk(EMPTY_INDEX, es, 0, which)
  {}

  /** The pass over the entities, which fills four indexes at once. */
  method IndexEntities(es: Entities)
      returns (functionNames: Index, classNames: Index, fileToClasses: Index, moduleToFunctions: Index)
    ensures IndexOk(functionNames, es, |es|, FunctionsByName) && IndexOk(classNames, es, |es|, ClassesByName)
    ensures IndexOk(fileToClasses, es, |es|, ClassesByFile) && IndexOk(moduleToFunctions, es, |es|, FunctionsByModule)
  {
    functionNames, classNames := EMPTY_INDEX, EMPTY_INDEX;
    fileToClasses, moduleToFunctions := EMPTY_INDEX, EMPTY_INDEX;
    EmptyIsOk(es);
    for n := 0 to |es|
      invariant IndexOk(functionNames, es, n, FunctionsByName) && IndexOk(classNames, es, n, ClassesByName)
      invariant IndexOk(fileToClasses, es, n, ClassesByFile) && IndexOk(moduleToFunctions, es, n, FunctionsByModule)
    {
      IndexOkStep(functionNames, es, n, FunctionsByName);
      IndexOkStep(classNames, es, n, ClassesByName);
      IndexOkStep(fileToClasses, es, n, ClassesByFile);
      IndexOkStep(moduleToFunctions, es, n, FunctionsByModule);
      functionNames, classNames, fileToClasses, moduleToFunctions :=
        IndexEntity(es[n].0, es[n].1, functionNames, classNames, fileToClasses, moduleToFunctions);
    }
  }

  /** The body of that pass. */
  method IndexEntity(id: string, e: Entity, fn: Index, cn: Index, fc: Index, mf: Index)
      returns (functionNames: Index, classNames: Index, fileToClasses: Index, moduleToFunctions: Index)
    ensures functionNames == Indexed(fn, (id, e), FunctionsByName)
    ensures classNames == Indexed(cn, (id, e), ClassesByName)
    ensures fileToClasses == Indexed(fc, (id, e), ClassesByFile)
    ensures moduleToFunctions == Indexed(mf, (id, e), FunctionsByModule)
  {
    functionNames, classNames, fileToClasses, moduleToFunctions := fn, cn, fc, mf;
    if e.kind == Function {
      functionNames := Append(functionNames, e.name, id);
      moduleToFunctions := Append(moduleToFunctions, e.moduleKey, id);
    } else if e.kind == Class {
      classNames := Append(classNames, e.name, id);
      fileToClasses := Append(fileToClasses, e.fileKey, id);
    }
  }

  /** The pass over the relationships. */
  method ReverseIndex(rs: seq<Relationship>) returns (reverse: map<(RelType, string), seq<string>>)
    ensures ReverseOk(reverse, rs, |rs|)
  {
    reverse := map[];
    for n := 0 to |rs|
      invariant ReverseOk(reverse, rs, n)
    {
      ReverseOkStep(reverse, rs, n);
      reverse := Reversed(reverse, rs[n]);
    }
  }

  // -------------------------------------------------------------- the layer

  class QueryLayer {
    const entities: Entities
    const relationships: seq<Relationship>
    var functionNames: Index
    var classNames: Index
    var fileToClasses: Index
    var moduleToFunctions: Index
    var reverse: map<(RelType, string), seq<string>>

    ghost predicate EntitiesIndexed(n: nat)
      requires n <= |entities|
      reads this
    {
      && IndexOk(functionNames, entities, n, FunctionsByName)
      && IndexOk(classNames, entities, n, ClassesByName)
      && IndexOk(fileToClasses, entities, n, ClassesByFile)
      && IndexOk(moduleToFunctions, entities, n, FunctionsByModule)
    }

    /** Every index equals, in order, the linear scan it replaces. */
    ghost predicate Valid()
      reads this
    {
      && DistinctIds(entities) && EntitiesIndexed(|entities|)
      && ReverseOk(reverse, relationships, |relationships|)
    }

    /** _build_indexes: one pass over the entities, one over the relationships. */
    constructor (entities: Entities, relationships: seq<Relationship>)
      requires DistinctIds(entities)
      ensures Valid() && this.entities == entities && this.relationships == relationships
    {
      this.entities, this.relationships := entities, relationships;
      var fn, cn, fc, mf := IndexEntities(entities);
      var rev := ReverseIndex(relationships);
      functionNames, classNames, fileToClasses, moduleToFunctions, reverse := fn, cn, fc, mf, rev;
    }

    /** find_function, get_class, get_functions_in_module and get_classes_in_file. */
    method Find(which: Which, key: string) returns (found: seq<Entity>)
      requires Valid()
      ensures found == Scan(entities, |entities|, which, key)
    {
      var ids := match which
        case FunctionsByName => Get(functionNames.lists, key)
        case ClassesByName => Get(classNames.lists, key)
        case FunctionsByModule => Get(moduleToFunctions.lists, key)
        case ClassesByFile => Get(fileToClasses.lists, key);
      found := [];
      for k := 0 to |ids|
        invariant found == Entries(entities, ids, k)
      {
        found := found + EntityOf(entities, |entities|, ids[k]);
      }
      EntriesOfScan(entities, |entities|, which, key);
    }

    /** A lookup in the reverse index is what the reverse queries scan for. */
    method Sources(kind: RelType, target: string) returns (sources: seq<string>)
      requires Valid()
      ensures sources == Backward(relationships, |relationships|, kind, target)
    {
      sources := Get(reverse, (kind, target));
    }

    /**
     * search_entities, where `hits` is "the query occurs in the name, ignoring case": every matching
     * function and then every matching class, exactly once, with its name and file, in the order of Matching.
     */
    method SearchEntities(hits: string -> bool) returns (results: seq<Hit>)
      requires Valid()
      ensures results == Matching(entities, false, hits) + Matching(entities, true, hits)
      ensures NoRepeats(results)
      ensures forall h :: h in results <==>
                exists i :: 0 <= i < |entities| && entities[i].0 == h.id && hits(entities[i].1.name)
                            && entities[i].1.kind == (if h.isClass then Class else Function)
                            && h.name == entities[i].1.name && h.file == entities[i].1.path
      ensures forall i, j :: 0 <= i < j < |results| && results[i].isClass ==> results[j].isClass
    {
      results := CollectHits(entities, functionNames, classNames, hits);
      SearchIsRight(functionNames, classNames, entities, hits);
      forall h ensures IsHit(entities, hits, h) <==>
          exists i :: 0 <= i < |entities| && entities[i].0 == h.id && hits(entities[i].1.name)
                      && entities[i].1.kind == (if h.isClass then Class else Function)
                      && h.name == entities[i].1.name && h.file == entities[i].1.path
      {}
    }
  }

  // -------------------------------------------------------------- searching

  /** One search result. */
  datatype Hit = Hit(isClass: bool, id: string, name: string, file: string)

  function ByName(isClass: bool): Which {
    if isClass then ClassesByName else FunctionsByName
  }

  /** The result for an id, filled from its entity. */
  function HitOf(es: Entities, isClass: bool, id: string): Hit {
    var e := EntityOf(es, |es|, id);
    if e == [] then Hit(isClass, id, "", "") else Hit(isClass, id, e[0].name, e[0].path)
  }

  predicate IsHit(es: Entities, hits: string -> bool, h: Hit) {
    exists i :: 0 <= i < |es| && es[i].0 == h.id && Applies(es[i].1, ByName(h.isClass)) && hits(es[i].1.name)
                && h.name == es[i].1.name && h.file == es[i].1.path
  }

  function Tagged(es: Entities, ids: seq<string>, isClass: bool): (r: seq<Hit>)
    ensures |r| == |ids| && forall i :: 0 <= i < |ids| ==> r[i] == HitOf(es, isClass, ids[i])
  {
    seq(|ids|, i requires 0 <= i < |ids| => HitOf(es, isClass, ids[i]))
  }

  function HitsOfKey(es: Entities, idx: Index, k: nat, isClass: bool, hits: string -> bool): seq<Hit>
    requires k < |idx.keys|
  {
    if hits(idx.keys[k]) then Tagged(es, Get(idx.lists, idx.keys[k]), isClass) else []
  }

  function HitsOf(es: Entities, idx: Index, n: nat, isClass: bool, hits: string -> bool): seq<Hit>
    requires n <= |idx.keys|
  {
    if n == 0 then [] else HitsOf(es, idx, n - 1, isClass, hits) + HitsOfKey(es, idx, n - 1, isClass, hits)
  }

  /** The two loops of search_entities. */
  method CollectHits(es: Entities, functionNames: Index, classNames: Index, hits: string -> bool) returns (results: seq<Hit>)
    ensures results == HitsOf(es, functionNames, |functionNames.keys|, false, hits)
                       + HitsOf(es, classNames, |classNames.keys|, true, hits)
  {
    ghost var functions := HitsOf(es, functionNames, |functionNames.keys|, false, hits);
    results := CollectFrom(es, functionNames, false, hits, []);
    assert results == functions;
    results := CollectFrom(es, classNames, true, hits, results);
  }

  method CollectFrom(es: Entities, idx: Index, isClass: bool, hits: string -> bool, before: seq<Hit>) returns (results: seq<Hit>)
    ensures results == before + HitsOf(es, idx, |idx.keys|, isClass, hits)
  {
    results := before;
    for k := 0 to |idx.keys|
      invariant results == before + HitsOf(es, idx, k, isClass, hits)
    {
      Reassociate(before, HitsOf(es, idx, k, isClass, hits), HitsOfKey(es, idx, k, isClass, hits));
      results := results + HitsOfKey(es, idx, k, isClass, hits);
    }
  }

  /**
   * The matching functions or classes of a model: name by name in the order in which the names first
   * occur, and under each of the first `n` names in model order.
   */
  function Listing(es: Entities, n: nat, isClass: bool, hits: string -> bool): seq<Hit>
    requires n <= |KeysUsed(es, |es|, ByName(isClass))|
  {
    if n == 0 then []
    else
      var name := KeysUsed(es, |es|, ByName(isClass))[n - 1];
      Listing(es, n - 1, isClass, hits) +
      if hits(name) then Tagged(es, ScanIds(es, |es|, ByName(isClass), name), isClass) else []
  }

  function Matching(es: Entities, isClass: bool, hits: string -> bool): seq<Hit> {
    Listing(es, |KeysUsed(es, |es|, ByName(isClass))|, isClass, hits)
  }

  lemma {:induction false} HitsAreListing(idx: Index, es: Entities, isClass: bool, hits: string -> bool, n: nat)
    requires IndexOk(idx, es, |es|, ByName(isClass)) && n <= |idx.keys|
    ensures HitsOf(es, idx, n, isClass, hits) == Listing(es, n, isClass, hits)
  {
    if n > 0 {
      HitsAreListing(idx, es, isClass, hits, n - 1);
      assert Get(idx.lists, idx.keys[n - 1]) == ScanIds(es, |es|, ByName(isClass), idx.keys[n - 1]);
    }
  }

  /** A hit whose name is one of the first `n` keys. */
  predicate HitAmong(es: Entities, idx: Index, n: nat, hits: string -> bool, h: Hit)
    requires n <= |idx.keys|
  {
    h == HitOf(es, h.isClass, h.id)
    && exists k :: 0 <= k < n && hits(idx.keys[k]) && HasKey(es, ByName(h.isClass), idx.keys[k], h.id)
  }

  /** Exactly the hits of the first `n` names, each once. */
  ghost predicate AreHits(idx: Index, es: Entities, isClass: bool, hits: string -> bool, n: nat, a: seq<Hit>) {
    n <= |idx.keys| && NoRepeats(a) && forall h :: h in a <==> h.isClass == isClass && HitAmong(es, idx, n, hits, h)
  }

  /** Exactly the hits of the `k`-th name, each once. */
  ghost predicate AreHitsOfKey(idx: Index, es: Entities, isClass: bool, hits: string -> bool, k: nat, b: seq<Hit>) {
    && k < |idx.keys| && NoRepeats(b)
    && forall h :: h in b <==>
         h.isClass == isClass && h == HitOf(es, isClass, h.id)
         && hits(idx.keys[k]) && HasKey(es, ByName(isClass), idx.keys[k], h.id)
  }

  lemma KeyHits(idx: Index, es: Entities, isClass: bool, hits: string -> bool, k: nat)
    requires DistinctIds(es) && IndexOk(idx, es, |es|, ByName(isClass)) && k < |idx.keys|
    ensures AreHitsOfKey(idx, es, isClass, hits, k, HitsOfKey(es, idx, k, isClass, hits))
  {
    var key := idx.keys[k];
    assert Get(idx.lists, key) == ScanIds(es, |es|, ByName(isClass), key);
    TaggedScan(es, isClass, key);
  }

  lemma TaggedScan(es: Entities, isClass: bool, key: string)
    requires DistinctIds(es)
    ensures var tagged := Tagged(es, ScanIds(es, |es|, ByName(isClass), key), isClass);
            && NoRepeats(tagged)
            && forall h :: h in tagged <==>
                 h.isClass == isClass && h == HitOf(es, isClass, h.id) && HasKey(es, ByName(isClass), key, h.id)
  {
    var ids := ScanIds(es, |es|, ByName(isClass), key);
    ScanIdsDistinct(es, |es|, ByName(isClass), key);
    forall h: Hit ensures h in Tagged(es, ids, isClass) <==>
                            h.isClass == isClass && h == HitOf(es, isClass, h.id) && HasKey(es, ByName(isClass), key, h.id)
    {
      ScanIdsMembers(es, |es|, ByName(isClass), key, h.id);
      TaggedMembers(es, ids, isClass, h);
    }
  }

  lemma TaggedMembers(es: Entities, ids: seq<string>, isClass: bool, h: Hit)
    ensures h in Tagged(es, ids, isClass) <==> h == HitOf(es, isClass, h.id) && h.id in ids
  {
    if h == HitOf(es, isClass, h.id) && h.id in ids {
      var i :| 0 <= i < |ids| && ids[i] == h.id;
      assert Tagged(es, ids, isClass)[i] == h;
    }
  }

  /** An id has only one name. */
  lemma KeyIsUnique(es: Entities, which: Which, a: string, b: string, id: string)
    requires DistinctIds(es)
    ensures HasKey(es, which, a, id) && HasKey(es, which, b, id) ==> a == b
  {
    if HasKey(es, which, a, id) {
      var i :| 0 <= i < |es| && es[i].0 == id && Matches(es[i].1, which, a);
    }
  }

  /** Induction over the names, whatever is claimed about the hits so far. */
  lemma {:induction false} HitsByName(es: Entities, idx: Index, isClass: bool, hits: string -> bool, n: nat, good: (nat, seq<Hit>) -> bool)
    requires n <= |idx.keys| && good(0, [])
    requires forall k: nat, a: seq<Hit> :: k < n && good(k, a) ==> good(k + 1, a + HitsOfKey(es, idx, k, isClass, hits))
    ensures good(n, HitsOf(es, idx, n, isClass, hits))
  {
    if n > 0 {
      HitsByName(es, idx, isClass, hits, n - 1, good);
      assert good(n - 1 + 1, HitsOf(es, idx, n - 1, isClass, hits) + HitsOfKey(es, idx, n - 1, isClass, hits));
    }
  }

  lemma HitsSoFar(idx: Index, es: Entities, isClass: bool, hits: string -> bool, n: nat)
    requires DistinctIds(es) && IndexOk(idx, es, |es|, ByName(isClass)) && n <= |idx.keys|
    ensures AreHits(idx, es, isClass, hits, n, HitsOf(es, idx, n, isClass, hits))
  {
    var good := (k: nat, a: seq<Hit>) => AreHits(idx, es, isClass, hits, k, a);
    assert good(0, []);
    forall k: nat, a: seq<Hit> | k < n && good(k, a) ensures good(k + 1, a + HitsOfKey(es, idx, k, isClass, hits)) {
      HitsNext(idx, es, isClass, hits, k, a);
    }
    HitsByName(es, idx, isClass, hits, n, good);
    assert good(n, HitsOf(es, idx, n, isClass, hits));
  }

  /** The hits of one more name. */
  lemma HitsNext(idx: Index, es: Entities, isClass: bool, hits: string -> bool, n: nat, a: seq<Hit>)
    requires DistinctIds(es) && IndexOk(idx, es, |es|, ByName(isClass)) && n < |idx.keys| && AreHits(idx, es, isClass, hits, n, a)
    ensures AreHits(idx, es, isClass, hits, n + 1, a + HitsOfKey(es, idx, n, isClass, hits))
  {
    var b := HitsOfKey(es, idx, n, isClass, hits);
    KeyHits(idx, es, isClass, hits, n);
    HitsApart(idx, es, isClass, hits, n, a, b);
    NoRepeatsConcat(a, b);
    forall h: Hit ensures h in a + b <==> h.isClass == isClass && HitAmong(es, idx, n + 1, hits, h) {
      HitAmongNext(es, idx, n, hits, h);
    }
  }

  lemma HitsApart(idx: Index, es: Entities, isClass: bool, hits: string -> bool, n: nat, a: seq<Hit>, b: seq<Hit>)
    requires DistinctIds(es) && IndexOk(idx, es, |es|, ByName(isClass))
    requires AreHits(idx, es, isClass, hits, n, a) && AreHitsOfKey(idx, es, isClass, hits, n, b)
    ensures forall h :: h in a ==> h !in b
  {
    forall h | h in a ensures h !in b {
      var k :| 0 <= k < n && hits(idx.keys[k]) && HasKey(es, ByName(h.isClass), idx.keys[k], h.id);
      KeyIsUnique(es, ByName(isClass), idx.keys[k], idx.keys[n], h.id);
    }
  }

  lemma HitAmongNext(es: Entities, idx: Index, n: nat, hits: string -> bool, h: Hit)
    requires n < |idx.keys|
    ensures HitAmong(es, idx, n + 1, hits, h) <==>
              || HitAmong(es, idx, n, hits, h)
              || (h == HitOf(es, h.isClass, h.id) && hits(idx.keys[n]) && HasKey(es, ByName(h.isClass), idx.keys[n], h.id))
  {
    if HitAmong(es, idx, n + 1, hits, h) {
      var k :| 0 <= k < n + 1 && hits(idx.keys[k]) && HasKey(es, ByName(h.isClass), idx.keys[k], h.id);
    }
  }

  lemma HitsAreRight(idx: Index, es: Entities, isClass: bool, hits: string -> bool, n: nat)
    requires DistinctIds(es) && IndexOk(idx, es, |es|, ByName(isClass)) && n == |idx.keys|
    ensures NoRepeats(HitsOf(es, idx, n, isClass, hits))
    ensures forall h :: h in HitsOf(es, idx, n, isClass, hits) <==> h.isClass == isClass && IsHit(es, hits, h)
  {
    HitsSoFar(idx, es, isClass, hits, n);
    forall h: Hit | h.isClass == isClass ensures HitAmong(es, idx, n, hits, h) <==> IsHit(es, hits, h) {
      if IsHit(es, hits, h) {
        HitIsAmong(idx, es, hits, h);
      }
      if HitAmong(es, idx, n, hits, h) {
        var k :| 0 <= k < n && hits(idx.keys[k]) && HasKey(es, ByName(h.isClass), idx.keys[k], h.id);
        var i :| 0 <= i < |es| && es[i].0 == h.id && Matches(es[i].1, ByName(h.isClass), idx.keys[k]);
        EntityOfMember(es, |es|, i);
      }
    }
  }

  lemma HitIsAmong(idx: Index, es: Entities, hits: string -> bool, h: Hit)
    requires DistinctIds(es) && IndexOk(idx, es, |es|, ByName(h.isClass)) && IsHit(es, hits, h)
    ensures HitAmong(es, idx, |idx.keys|, hits, h)
  {
    var i :| 0 <= i < |es| && es[i].0 == h.id && Applies(es[i].1, ByName(h.isClass)) && hits(es[i].1.name)
             && h.name == es[i].1.name && h.file == es[i].1.path;
    EntityOfMember(es, |es|, i);
    var name := es[i].1.name;
    ScanIdsMembers(es, |es|, ByName(h.isClass), name, h.id);
    assert Get(idx.lists, name) == ScanIds(es, |es|, ByName(h.isClass), name);
    assert name in idx.keys;
    assert HasKey(es, ByName(h.isClass), name, h.id);
  }

  lemma SearchIsRight(functionNames: Index, classNames: Index, es: Entities, hits: string -> bool)
    requires DistinctIds(es)
    requires IndexOk(functionNames, es, |es|, FunctionsByName) && IndexOk(classNames, es, |es|, ClassesByName)
    ensures var all := HitsOf(es, functionNames, |functionNames.keys|, false, hits)
                       + HitsOf(es, classNames, |classNames.keys|, true, hits);
            && NoRepeats(all) && all == Matching(es, false, hits) + Matching(es, true, hits)
            && (forall h :: h in all <==> IsHit(es, hits, h))
            && forall i, j :: 0 <= i < j < |all| && all[i].isClass ==> all[j].isClass
  {
    HitsAreListing(functionNames, es, false, hits, |functionNames.keys|);
    HitsAreListing(classNames, es, true, hits, |classNames.keys|);
    HitsAreRight(functionNames, es, false, hits, |functionNames.keys|);
    HitsAreRight(classNames, es, true, hits, |classNames.keys|);
    AllHits(es, hits, HitsOf(es, functionNames, |functionNames.keys|, false, hits),
            HitsOf(es, classNames, |classNames.keys|, true, hits));
  }

  lemma AllHits(es: Entities, hits: string -> bool, functions: seq<Hit>, classes: seq<Hit>)
    requires NoRepeats(functions) && NoRepeats(classes)
    requires forall h :: h in functions <==> !h.isClass && IsHit(es, hits, h)
    requires forall h :: h in classes <==> h.isClass && IsHit(es, hits, h)
    ensures NoRepeats(functions + classes)
    ensures forall h :: h in functions + classes <==> IsHit(es, hits, h)
    ensures var all := functions + classes;
            forall i, j :: 0 <= i < j < |all| && all[i].isClass ==> all[j].isClass
  {
    NoRepeatsConcat(functions, classes);
    var all := functions + classes;
    forall i | 0 <= i < |all| ensures all[i].isClass <==> |functions| <= i {
      if i < |functions| {
        assert all[i] in functions;
      } else {
        assert all[i] in classes;
      }
    }
  }

  // ------------------------------------------------- from ids back to entities

  /** [entities[id]] if there is such an entity among the first `n`. */
  function EntityOf(es: Entities, n: nat, id: string): seq<Entity>
    requires n <= |es|
  {
    if n == 0 then []
    else if es[n - 1].0 == id then [es[n - 1].1]
    else EntityOf(es, n - 1, id)
  }

  /** [entities[id] for id in ids[:k] if id in entities]. */
  function Entries(es: Entities, ids: seq<string>, k: nat): seq<Entity>
    requires k <= |ids|
  {
    if k == 0 then [] else Entries(es, ids, k - 1) + EntityOf(es, |es|, ids[k - 1])
  }

  lemma {:induction false} EntriesPrefix(es: Entities, a: seq<string>, b: seq<string>, k: nat)
    requires k <= |a| && k <= |b| && forall i :: 0 <= i < k ==> a[i] == b[i]
    ensures Entries(es, a, k) == Entries(es, b, k)
  {
    if k > 0 {
      EntriesPrefix(es, a, b, k - 1);
    }
  }

  lemma {:induction false} EntityOfMember(es: Entities, n: nat, i: nat)
    requires DistinctIds(es) && i < n <= |es|
    ensures EntityOf(es, n, es[i].0) == [es[i].1]
  {
    if i < n - 1 {
      EntityOfMember(es, n - 1, i);
    }
  }

  lemma {:induction false} EntriesOfScan(es: Entities, n: nat, which: Which, key: string)
    requires DistinctIds(es) && n <= |es|
    ensures var ids := ScanIds(es, n, which, key); Entries(es, ids, |ids|) == Scan(es, n, which, key)
  {
    if n > 0 {
      EntriesOfScan(es, n - 1, which, key);
      if Matches(es[n - 1].1, which, key) {
        var before, after := ScanIds(es, n - 1, which, key), ScanIds(es, n, which, key);
        assert after == before + [es[n - 1].0];
        EntriesPrefix(es, after, before, |before|);
        EntityOfMember(es, |es|, n - 1);
      } else {
        assert ScanIds(es, n, which, key) == ScanIds(es, n - 1, which, key);
        assert Scan(es, n, which, key) == Scan(es, n - 1, which, key);
      }
    }
  }

  // ------------------------------------------------- what the scans pick out

  function EntityList(es: Entities): (r: seq<Entity>)
    ensures |r| == |es| && forall k :: 0 <= k < |es| ==> r[k] == es[k].1
  {
    seq(|es|, k requires 0 <= k < |es| => es[k].1)
  }

  lemma ScanCollects(es: Entities, which: Which, key: string) returns (at: seq<nat>)
    ensures Picks(Scan(es, |es|, which, key), EntityList(es), |es|, (k: nat) => k < |es| && Matches(es[k].1, which, key), at)
  {
    var p := (k: nat) => k < |es| && Matches(es[k].1, which, key);
    at := Collected((n: nat) => if n <= |es| then Scan(es, n, which, key) else [], EntityList(es), |es|, p);
  }

  /** Looking up a name or a module gives the functions, looking up a name or a file the classes, in model order. */
  lemma ScanMeans(es: Entities, which: Which, key: string) returns (at: seq<nat>)
    ensures var found := Scan(es, |es|, which, key);
            && |at| == |found| && (forall i, j :: 0 <= i < j < |at| ==> at[i] < at[j])
            && (forall i :: 0 <= i < |at| ==> at[i] < |es| && found[i] == es[at[i]].1)
            && forall k: nat :: k < |es| ==>
                 var e := es[k].1;
                 k in at <==>
                   match which
                   case FunctionsByName => e.kind == Function && e.name == key
                   case FunctionsByModule => e.kind == Function && e.moduleKey == key
                   case ClassesByName => e.kind == Class && e.name == key
                   case ClassesByFile => e.kind == Class && e.fileKey == key
  {
    at := ScanCollects(es, which, key);
    forall k: nat | k < |es|
      ensures k in at <==> Matches(es[k].1, which, key)
    {
      if k in at {
        var i :| 0 <= i < |at| && at[i] == k;
      }
    }
  }

  function Targets(rs: seq<Relationship>): (r: seq<string>)
    ensures |r| == |rs| && forall k :: 0 <= k < |rs| ==> r[k] == rs[k].target
  {
    seq(|rs|, k requires 0 <= k < |rs| => rs[k].target)
  }

  function Ends(rs: seq<Relationship>): (r: seq<string>)
    ensures |r| == |rs| && forall k :: 0 <= k < |rs| ==> r[k] == rs[k].source
  {
    seq(|rs|, k requires 0 <= k < |rs| => rs[k].source)
  }

  /** The targets of the relationships of a kind that start at an entity, in model order. */
  lemma ForwardMeans(rs: seq<Relationship>, kind: RelType, source: string) returns (at: seq<nat>)
    ensures Picks(Forward(rs, |rs|, kind, source), Targets(rs), |rs|,
                  (k: nat) => k < |rs| && rs[k].kind == kind && rs[k].source == source, at)
  {
    var p := (k: nat) => k < |rs| && rs[k].kind == kind && rs[k].source == source;
    at := Collected((n: nat) => if n <= |rs| then Forward(rs, n, kind, source) else [], Targets(rs), |rs|, p);
  }

  /** The sources of the relationships of a kind that end at an entity, in model order. */
  lemma BackwardMeans(rs: seq<Relationship>, kind: RelType, target: string) returns (at: seq<nat>)
    ensures Picks(Backward(rs, |rs|, kind, target), Ends(rs), |rs|,
                  (k: nat) => k < |rs| && rs[k].kind == kind && rs[k].target == target, at)
  {
    var p := (k: nat) => k < |rs| && rs[k].kind == kind && rs[k].target == target;
    at := Collected((n: nat) => if n <= |rs| then Backward(rs, n, kind, target) else [], Ends(rs), |rs|, p);
  }

  // ---------------------------------------------------- the order of a search

  /** Entity `i` is a function, or a class, of this name. */
  predicate IsNamed(es: Entities, i: nat, isClass: bool, name: string) {
    i < |es| && es[i].1.kind == (if isClass then Class else Function) && es[i].1.name == name
  }

  /** Of the same name and earlier in the model, or of a name that is used before the other one is used at all. */
  ghost predicate ComesBefore(es: Entities, x: Hit, y: Hit) {
    if x.name == y.name then
      exists a, b :: 0 <= a < b < |es| && es[a].0 == x.id && es[b].0 == y.id
    else
      exists f :: 0 <= f < |es| && IsNamed(es, f, x.isClass, x.name)
                  && forall g :: 0 <= g < |es| && IsNamed(es, g, y.isClass, y.name) ==> f < g
  }

  lemma NamedIs(es: Entities, i: nat, isClass: bool, name: string)
    requires i < |es|
    ensures IsNamed(es, i, isClass, name) <==> Matches(es[i].1, ByName(isClass), name)
  {}

  lemma FirstUse(es: Entities, isClass: bool, name: string, n: nat) returns (f: nat)
    requires n <= |es| && UsedBefore(es, n, ByName(isClass), name)
    ensures f < n && IsNamed(es, f, isClass, name) && forall g :: 0 <= g < f ==> !IsNamed(es, g, isClass, name)
  {
    var p := (i: nat) => i > 0 && i <= n && UsedBefore(es, i, ByName(isClass), name);
    f := WhenFirst(p, n);
    var k :| 0 <= k < f + 1 && Matches(es[k].1, ByName(isClass), name);
    forall g | 0 <= g < f ensures !IsNamed(es, g, isClass, name) {
      NamedIs(es, g, isClass, name);
    }
    NamedIs(es, f, isClass, name);
  }

  /** A hit of a name in the listing, from the place its entity has in the model. */
  lemma GroupOrder(es: Entities, isClass: bool, name: string, x: nat, y: nat)
    requires DistinctIds(es)
    requires x < y < |ScanIds(es, |es|, ByName(isClass), name)|
    ensures var g := Tagged(es, ScanIds(es, |es|, ByName(isClass), name), isClass); ComesBefore(es, g[x], g[y])
  {
    var ids := ScanIds(es, |es|, ByName(isClass), name);
    var all := seq(|es|, k requires 0 <= k < |es| => es[k].0);
    var p := (k: nat) => k < |es| && Matches(es[k].1, ByName(isClass), name);
    var at := Collected((n: nat) => if n <= |es| then ScanIds(es, n, ByName(isClass), name) else [], all, |es|, p);
    EntityOfMember(es, |es|, at[x]);
    EntityOfMember(es, |es|, at[y]);
    assert es[at[x]].0 == ids[x] && es[at[y]].0 == ids[y];
  }

  lemma GroupNames(es: Entities, isClass: bool, name: string, x: nat)
    requires DistinctIds(es) && x < |ScanIds(es, |es|, ByName(isClass), name)|
    ensures IsHitOfName(Tagged(es, ScanIds(es, |es|, ByName(isClass), name), isClass)[x], isClass, name)
  {
    var ids := ScanIds(es, |es|, ByName(isClass), name);
    ScanIdsMembers(es, |es|, ByName(isClass), name, ids[x]);
    var i :| 0 <= i < |es| && es[i].0 == ids[x] && Matches(es[i].1, ByName(isClass), name);
    EntityOfMember(es, |es|, i);
  }

  predicate HasName(h: Hit, isClass: bool, keys: seq<string>, n: nat) {
    n <= |keys| && exists k :: 0 <= k < n && IsHitOfName(h, isClass, keys[k])
  }

  /** Every hit of the listing has one of the first `n` names. */
  predicate AreNamed(list: seq<Hit>, isClass: bool, keys: seq<string>, n: nat) {
    forall x :: 0 <= x < |list| ==> HasName(list[x], isClass, keys, n)
  }

  lemma MoreAreNamed(a: seq<Hit>, b: seq<Hit>, isClass: bool, keys: seq<string>, n: nat)
    requires AreNamed(a, isClass, keys, n) && n < |keys| && forall x :: 0 <= x < |b| ==> IsHitOfName(b[x], isClass, keys[n])
    ensures AreNamed(a + b, isClass, keys, n + 1)
  {
    forall x | 0 <= x < |a + b| ensures HasName((a + b)[x], isClass, keys, n + 1) {
      if x < |a| {
        assert HasName(a[x], isClass, keys, n);
        var k :| 0 <= k < n && IsHitOfName(a[x], isClass, keys[k]);
      } else {
        assert IsHitOfName(b[x - |a|], isClass, keys[n]);
      }
    }
  }

  lemma {:induction false} ListingNames(es: Entities, n: nat, isClass: bool, hits: string -> bool)
    requires DistinctIds(es) && n <= |KeysUsed(es, |es|, ByName(isClass))|
    ensures AreNamed(Listing(es, n, isClass, hits), isClass, KeysUsed(es, |es|, ByName(isClass)), n)
  {
    if n > 0 {
      ListingNames(es, n - 1, isClass, hits);
      var before, keys := Listing(es, n - 1, isClass, hits), KeysUsed(es, |es|, ByName(isClass));
      var group := if hits(keys[n - 1]) then Tagged(es, ScanIds(es, |es|, ByName(isClass), keys[n - 1]), isClass) else [];
      forall x | 0 <= x < |group| ensures IsHitOfName(group[x], isClass, keys[n - 1]) {
        GroupNames(es, isClass, keys[n - 1], x);
      }
      MoreAreNamed(before, group, isClass, keys, n - 1);
    }
  }

  predicate IsHitOfName(h: Hit, isClass: bool, name: string) {
    h.isClass == isClass && h.name == name
  }

  ghost predicate InOrder(es: Entities, list: seq<Hit>) {
    forall x, y :: 0 <= x < y < |list| ==> ComesBefore(es, list[x], list[y])
  }

  lemma JoinInOrder(es: Entities, a: seq<Hit>, b: seq<Hit>)
    requires InOrder(es, a) && InOrder(es, b)
    requires forall x, y :: 0 <= x < |a| && 0 <= y < |b| ==> ComesBefore(es, a[x], b[y])
    ensures InOrder(es, a + b)
  {}

  /** search_entities lists the functions, and the classes, by the first use of their name and then in model order. */
  lemma {:induction false} SearchOrder(es: Entities, n: nat, isClass: bool, hits: string -> bool)
    requires DistinctIds(es) && n <= |KeysUsed(es, |es|, ByName(isClass))|
    ensures InOrder(es, Listing(es, n, isClass, hits))
  {
    if n > 0 {
      SearchOrder(es, n - 1, isClass, hits);
      OneMoreName(es, n, isClass, hits);
    }
  }

  lemma OneMoreName(es: Entities, n: nat, isClass: bool, hits: string -> bool)
    requires DistinctIds(es) && 0 < n <= |KeysUsed(es, |es|, ByName(isClass))|
    requires InOrder(es, Listing(es, n - 1, isClass, hits))
    ensures InOrder(es, Listing(es, n, isClass, hits))
  {
    var before, name := Listing(es, n - 1, isClass, hits), KeysUsed(es, |es|, ByName(isClass))[n - 1];
    var group := if hits(name) then Tagged(es, ScanIds(es, |es|, ByName(isClass), name), isClass) else [];
    ListingNames(es, n - 1, isClass, hits);
    forall x, y | 0 <= x < y < |group| ensures ComesBefore(es, group[x], group[y]) {
      GroupOrder(es, isClass, name, x, y);
    }
    forall x, y | 0 <= x < |before| && 0 <= y < |group| ensures ComesBefore(es, before[x], group[y]) {
      assert HasName(before[x], isClass, KeysUsed(es, |es|, ByName(isClass)), n - 1);
      var k :| 0 <= k < n - 1 && IsHitOfName(before[x], isClass, KeysUsed(es, |es|, ByName(isClass))[k]);
      GroupNames(es, isClass, name, y);
      EarlierName(es, isClass, k, n - 1, before[x], group[y]);
    }
    JoinInOrder(es, before, group);
  }

  lemma EarlierName(es: Entities, isClass: bool, i: nat, j: nat, x: Hit, y: Hit)
    requires i < j < |KeysUsed(es, |es|, ByName(isClass))|
    requires IsHitOfName(x, isClass, KeysUsed(es, |es|, ByName(isClass))[i])
    requires IsHitOfName(y, isClass, KeysUsed(es, |es|, ByName(isClass))[j])
    ensures ComesBefore(es, x, y)
  {
    var which := ByName(isClass);
    KeysUsedMeaning(es, |es|, which);
    assert x.name in KeysUsed(es, |es|, which);
    var f := FirstUse(es, isClass, x.name, |es|);
    forall g | 0 <= g < |es| && IsNamed(es, g, isClass, y.name) ensures f < g {
      NamedIs(es, g, isClass, y.name);
      KeysUsedOrder(es, |es|, which, i, j, g);
      var m :| 0 <= m < g && Matches(es[m].1, which, x.name);
      NamedIs(es, m, isClass, x.name);
    }
  }
}
