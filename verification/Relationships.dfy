/**
 * backend/intelligence/relationships.py: which files depend on which, and which
 * functions call which, from the imports and calls found in a repository.
 */
module Relationships {
  import opened Basics

  // ---------------------------------------------------------- dotted names

  /** s.split('.'), from the component that starts at `start` and has been read up to `k`. */
  function SplitFrom(s: string, start: nat, k: nat): (parts: seq<string>)
    requires start <= k <= |s|
    ensures |parts| == |EndsFrom(s, k)|
    decreases |s| - k
  {
    if k == |s| then [s[start..]]
    else if s[k] == '.' then [s[start..k]] + SplitFrom(s, k + 1, k + 1)
    else SplitFrom(s, start, k + 1)
  }

  lemma SplitAtDot(s: string, start: nat, k: nat)
    requires start <= k < |s| && '.' !in s[start..k] && s[k] == '.'
    ensures Split(s[start..], '.') == [s[start..k]] + Split(s[k + 1..], '.')
  {
    SplitAfter(s[start..k], '.', s[k + 1..]);
    assert s[k..] == ['.'] + s[k + 1..];
    assert s[start..] == s[start..k] + s[k..];
    Reassociate(s[start..k], ['.'], s[k + 1..]);
  }

  lemma {:induction false} SplitFromIsSplit(s: string, start: nat, k: nat)
    requires start <= k <= |s| && '.' !in s[start..k]
    ensures SplitFrom(s, start, k) == Split(s[start..], '.')
    decreases |s| - k
  {
    if k == |s| {
      SplitParts(s[start..], '.');
      assert s[start..k] == s[start..];
    } else if s[k] == '.' {
      SplitFromIsSplit(s, k + 1, k + 1);
      SplitAtDot(s, start, k);
    } else {
      assert s[start..k + 1] == s[start..k] + [s[k]];
      SplitFromIsSplit(s, start, k + 1);
    }
  }

  /** Where the components end: at the dots and at the end of the name. */
  function EndsFrom(s: string, k: nat): (ends: seq<nat>)
    requires k <= |s|
    ensures ends != []
    decreases |s| - k
  {
    if k == |s| then [k] else (if s[k] == '.' then [k] else []) + EndsFrom(s, k + 1)
  }

  predicate IsEnd(s: string, e: nat) {
    e == |s| || (e < |s| && s[e] == '.')
  }

  lemma {:induction false} EndsAreEnds(s: string, k: nat)
    requires k <= |s|
    ensures forall e: nat :: e in EndsFrom(s, k) <==> k <= e && IsEnd(s, e)
    ensures forall i, j :: 0 <= i < j < |EndsFrom(s, k)| ==> EndsFrom(s, k)[i] < EndsFrom(s, k)[j]
    decreases |s| - k
  {
    if k < |s| {
      EndsAreEnds(s, k + 1);
      var rest := EndsFrom(s, k + 1);
      assert forall j :: 0 <= j < |rest| ==> rest[j] in rest;
    }
  }

  lemma ComponentsUnfold(s: string, start: nat, k: nat)
    requires start <= k < |s|
    ensures s[k] == '.' ==>
              && SplitFrom(s, start, k) == [s[start..k]] + SplitFrom(s, k + 1, k + 1)
              && EndsFrom(s, k) == [k] + EndsFrom(s, k + 1)
    ensures s[k] != '.' ==> SplitFrom(s, start, k) == SplitFrom(s, start, k + 1) && EndsFrom(s, k) == EndsFrom(s, k + 1)
  {}

  lemma JoinAtDot(s: string, start: nat, k: nat, e: nat, rest: seq<string>, i: nat)
    requires start <= k < e <= |s| && s[k] == '.' && 0 < i <= |rest| && Join(rest[..i], ".") == s[k + 1..e]
    ensures Join(([s[start..k]] + rest)[..i + 1], ".") == s[start..e]
  {
    assert ([s[start..k]] + rest)[..i + 1] == [s[start..k]] + rest[..i];
    JoinCons(s[start..k], rest[..i], ".");
    assert s[start..k] + "." + s[k + 1..e] == s[start..e];
  }

  /** ".".join(parts[:i]) is the name up to the end of component `i`. */
  lemma {:induction false} JoinOfComponents(s: string, start: nat, k: nat, i: nat)
    requires start <= k <= |s| && 0 < i <= |EndsFrom(s, k)|
    ensures |SplitFrom(s, start, k)| == |EndsFrom(s, k)| && k <= EndsFrom(s, k)[i - 1] <= |s|
    ensures Join(SplitFrom(s, start, k)[..i], ".") == s[start..EndsFrom(s, k)[i - 1]]
    decreases |s| - k
  {
    var parts := SplitFrom(s, start, k);
    if k == |s| {
      assert parts[..1] == [s[start..]];
    } else {
      ComponentsUnfold(s, start, k);
      if s[k] != '.' {
        JoinOfComponents(s, start, k + 1, i);
      } else if i == 1 {
        JoinOfComponents(s, k + 1, k + 1, 1);
        assert parts[..1] == [s[start..k]];
      } else {
        JoinOfComponents(s, k + 1, k + 1, i - 1);
        JoinAtDot(s, start, k, EndsFrom(s, k + 1)[i - 2], SplitFrom(s, k + 1, k + 1), i - 1);
      }
    }
  }

  lemma ComponentsEnd(target: string)
    ensures |Split(target, '.')| == |EndsFrom(target, 0)| && Split(target, '.') == SplitFrom(target, 0, 0)
  {
    SplitFromIsSplit(target, 0, 0);
    assert target[0..] == target;
  }

  /** ".".join(parts[:i]) for the parts of a module name. */
  lemma ParentName(target: string, i: nat)
    requires 0 < i <= |EndsFrom(target, 0)|
    ensures i <= |Split(target, '.')| && EndsFrom(target, 0)[i - 1] <= |target|
    ensures Join(Split(target, '.')[..i], ".") == target[..EndsFrom(target, 0)[i - 1]]
  {
    ComponentsEnd(target);
    JoinOfComponents(target, 0, 0, i);
  }

  /** `p` is the module `s` or one of its parent packages. */
  predicate DottedPrefix(p: string, s: string) {
    p == s || p + "." <= s
  }

  lemma PrefixesEndAtEnds(p: string, s: string)
    ensures DottedPrefix(p, s) <==> |p| <= |s| && p == s[..|p|] && IsEnd(s, |p|)
  {
    if |p| < |s| && p == s[..|p|] && s[|p|] == '.' {
      assert p + "." == s[..|p| + 1];
    }
    if p + "." <= s {
      assert p + "." == s[..|p| + 1];
      assert p == (p + ".")[..|p|] == s[..|p|];
      assert (p + ".")[|p|] == '.';
    }
  }

  // --------------------------------------------------------------- imports

  /** What an import of `target` resolves to: the longest dotted prefix that is a module. */
  ghost predicate ResolvesTo(modules: map<string, string>, target: string, file: string) {
    exists p :: p in modules && DottedPrefix(p, target) && modules[p] == file
                && forall q :: q in modules && DottedPrefix(q, target) ==> |q| <= |p|
  }

  ghost predicate Unresolvable(modules: map<string, string>, target: string) {
    forall q :: q in modules ==> !DottedPrefix(q, target)
  }

  lemma ResolutionIsUnique(modules: map<string, string>, target: string, a: string, b: string)
    requires ResolvesTo(modules, target, a) && ResolvesTo(modules, target, b)
    ensures a == b && !Unresolvable(modules, target)
  {
    var p :| p in modules && DottedPrefix(p, target) && modules[p] == a
             && forall q :: q in modules && DottedPrefix(q, target) ==> |q| <= |p|;
    var q :| q in modules && DottedPrefix(q, target) && modules[q] == b
             && forall x :: x in modules && DottedPrefix(x, target) ==> |x| <= |q|;
    SamePrefix(p, q, target);
  }

  lemma SamePrefix(p: string, q: string, s: string)
    requires DottedPrefix(p, s) && DottedPrefix(q, s) && |p| == |q|
    ensures p == q
  {
    PrefixesEndAtEnds(p, s);
    PrefixesEndAtEnds(q, s);
  }

  /** Of the prefixes that end with component `i + 1` or a later one, none is a module. */
  ghost predicate NoneFrom(modules: map<string, string>, target: string, i: nat) {
    var parts := Split(target, '.');
    i <= |parts| && forall j :: i < j <= |parts| ==> Join(parts[..j], ".") !in modules
  }

  /** A dotted prefix is what the loop makes of its first `j` components. */
  lemma PrefixIsParent(q: string, target: string) returns (j: nat)
    requires DottedPrefix(q, target)
    ensures 0 < j <= |Split(target, '.')| && q == Join(Split(target, '.')[..j], ".")
    ensures |Split(target, '.')| == |EndsFrom(target, 0)| && EndsFrom(target, 0)[j - 1] == |q|
  {
    PrefixesEndAtEnds(q, target);
    EndsAreEnds(target, 0);
    assert |q| in EndsFrom(target, 0);
    var k :| 0 <= k < |EndsFrom(target, 0)| && EndsFrom(target, 0)[k] == |q|;
    j := k + 1;
    ParentName(target, j);
    ComponentsEnd(target);
  }

  lemma ParentsGrow(target: string, i: nat, j: nat)
    requires i < j < |EndsFrom(target, 0)|
    ensures EndsFrom(target, 0)[i] < EndsFrom(target, 0)[j]
  {
    EndsAreEnds(target, 0);
  }

  lemma ParentIsPrefix(target: string, i: nat)
    requires 0 < i <= |Split(target, '.')|
    ensures |Split(target, '.')| == |EndsFrom(target, 0)|
    ensures var parent := Join(Split(target, '.')[..i], ".");
            DottedPrefix(parent, target) && |parent| == EndsFrom(target, 0)[i - 1]
  {
    ComponentsEnd(target);
    ParentName(target, i);
    EndsAreEnds(target, 0);
    assert EndsFrom(target, 0)[i - 1] in EndsFrom(target, 0);
    PrefixesEndAtEnds(Join(Split(target, '.')[..i], "."), target);
  }

  lemma LongestResolves(modules: map<string, string>, target: string, i: nat)
    requires 0 < i && NoneFrom(modules, target, i) && Join(Split(target, '.')[..i], ".") in modules
    ensures ResolvesTo(modules, target, modules[Join(Split(target, '.')[..i], ".")])
  {
    var parent := Join(Split(target, '.')[..i], ".");
    ParentIsPrefix(target, i);
    forall q | q in modules && DottedPrefix(q, target) ensures |q| <= |parent| {
      var j := PrefixIsParent(q, target);
      if j < i {
        ParentsGrow(target, j - 1, i - 1);
      }
    }
  }

  lemma DirectResolves(modules: map<string, string>, target: string)
    requires target in modules
    ensures ResolvesTo(modules, target, modules[target])
  {
    forall q | q in modules && DottedPrefix(q, target) ensures |q| <= |target| {}
    assert DottedPrefix(target, target);
  }

  lemma NoneResolves(modules: map<string, string>, target: string)
    requires NoneFrom(modules, target, 0)
    ensures Unresolvable(modules, target)
  {
    forall q | q in modules ensures !DottedPrefix(q, target) {
      if DottedPrefix(q, target) {
        var j := PrefixIsParent(q, target);
      }
    }
  }

  /** The lookup, then the loop over shorter and shorter prefixes with its break. */
  method ResolveImport(modules: map<string, string>, target: string) returns (file: Option<string>)
    ensures file.Some? ==> ResolvesTo(modules, target, file.value)
    ensures file.None? ==> Unresolvable(modules, target)
  {
    if target in modules {
      DirectResolves(modules, target);
      return Some(modules[target]);
    }
    var parts := Split(target, '.');
    var i := |parts|;
    while i > 0
      invariant i >= 0 && NoneFrom(modules, target, i)
    {
      var parent := Join(parts[..i], ".");
      if parent in modules {
        LongestResolves(modules, target, i);
        return Some(modules[parent]);
      }
      i := i - 1;
    }
    NoneResolves(modules, target);
    return None;
  }

  datatype Module = Module(name: string, file: string)

  datatype Import = Import(file: string, target: string)

  /** `module_map[mod.name] = mod.file_id` in order: the last module of a name stays. */
  function ModuleMap(modules: seq<Module>): map<string, string> {
    if modules == [] then map[]
    else ModuleMap(modules[..|modules| - 1])[modules[|modules| - 1].name := modules[|modules| - 1].file]
  }

  type Links = map<string, seq<string>>

  function Get(links: Links, key: string): seq<string> {
    if key in links then links[key] else []
  }

  /** `to` is listed under `from`. */
  predicate Linked(links: Links, from: string, to: string) {
    to in Get(links, from)
  }

  /** links.setdefault(from, []).append(to). */
  function Link(links: Links, from: string, to: string): (r: Links)
    ensures forall a, b :: Linked(r, a, b) <==> Linked(links, a, b) || (a == from && b == to)
  {
    links[from := Get(links, from) + [to]]
  }

  ghost predicate Depends(modules: map<string, string>, imports: seq<Import>, n: nat, from: string, to: string)
    requires n <= |imports|
  {
    exists i :: 0 <= i < n && imports[i].file == from && ResolvesTo(modules, imports[i].target, to)
  }

  /** The pass over the imports: exactly the resolvable ones add a link, to the file they resolve to. */
  method LinkImports(modules: map<string, string>, imports: seq<Import>) returns (links: Links)
    ensures forall a, b :: Linked(links, a, b) <==> Depends(modules, imports, |imports|, a, b)
  {
    links := map[];
    for n := 0 to |imports|
      invariant forall a, b :: Linked(links, a, b) <==> Depends(modules, imports, n, a, b)
    {
      var imp := imports[n];
      var file := ResolveImport(modules, imp.target);
      ghost var before := links;
      if file.Some? {
        links := Link(links, imp.file, file.value);
      }
      forall a, b ensures Linked(links, a, b) <==> Depends(modules, imports, n + 1, a, b) {
        DependsStep(modules, imports, n, a, b);
        assert Linked(before, a, b) <==> Depends(modules, imports, n, a, b);
        if ResolvesTo(modules, imp.target, b) {
          if file.Some? {
            ResolutionIsUnique(modules, imp.target, b, file.value);
          } else {
            ResolutionIsUnique(modules, imp.target, b, b);
          }
        }
      }
    }
  }

  lemma DependsStep(modules: map<string, string>, imports: seq<Import>, n: nat, a: string, b: string)
    requires n < |imports|
    ensures Depends(modules, imports, n + 1, a, b) <==>
              Depends(modules, imports, n, a, b) || (imports[n].file == a && ResolvesTo(modules, imports[n].target, b))
  {
    if Depends(modules, imports, n + 1, a, b) {
      var i :| 0 <= i < n + 1 && imports[i].file == a && ResolvesTo(modules, imports[i].target, b);
      assert i == n || i < n;
    }
  }

  // ----------------------------------------------------------------- calls

  /** A function or method: its id and its bare name. */
  datatype Definition = Definition(id: string, name: string)

  /** The calls extracted from one file, as (caller, callee) names; none if it could not be parsed. */
  datatype FileCalls = FileCalls(fileId: string, moduleId: string, calls: seq<(string, string)>)

  /** f"{module_id}::", or f"{file_id}::" for a file without module id. */
  function Scope(f: FileCalls): string {
    (if f.moduleId != "" then f.moduleId else f.fileId) + "::"
  }

  /** name_to_ids.get(name, []). */
  function IdsNamed(defs: seq<Definition>, name: string): seq<string> {
    if defs == [] then []
    else IdsNamed(defs[..|defs| - 1], name)
         + (if defs[|defs| - 1].name == name then [defs[|defs| - 1].id] else [])
  }

  /** The ids one call is linked to: the only definition, or the definitions of the same module. */
  predicate CallTarget(defs: seq<Definition>, f: FileCalls, callee: string, id: string) {
    var ids := IdsNamed(defs, callee);
    id in ids && (|ids| == 1 || Scope(f) <= id)
  }

  ghost predicate CalledIn(defs: seq<Definition>, f: FileCalls, n: nat, from: string, to: string)
    requires n <= |f.calls|
  {
    exists i :: 0 <= i < n && from == Scope(f) + f.calls[i].0 && CallTarget(defs, f, f.calls[i].1, to)
  }

  ghost predicate CalledBefore(defs: seq<Definition>, files: seq<FileCalls>, m: nat, from: string, to: string)
    requires m <= |files|
  {
    exists j :: 0 <= j < m && CalledIn(defs, files[j], |files[j].calls|, from, to)
  }

  /** One call: link the only definition, or every definition in the caller's scope. */
  method LinkCall(defs: seq<Definition>, f: FileCalls, caller: string, callee: string, links0: Links) returns (links: Links)
    ensures forall a, b :: Linked(links, a, b) <==>
              Linked(links0, a, b) || (a == Scope(f) + caller && CallTarget(defs, f, callee, b))
  {
    links := links0;
    var from := Scope(f) + caller;
    var ids := IdsNamed(defs, callee);
    if |ids| == 1 {
      links := Link(links, from, ids[0]);
    } else {
      for k := 0 to |ids|
        invariant forall a, b :: Linked(links, a, b) <==>
                    Linked(links0, a, b) || (a == from && b in ids[..k] && Scope(f) <= b)
      {
        ghost var before := links;
        if Scope(f) <= ids[k] {
          links := Link(links, from, ids[k]);
        }
        forall a, b ensures Linked(links, a, b) <==>
            Linked(links0, a, b) || (a == from && b in ids[..k + 1] && Scope(f) <= b)
        {
          assert ids[..k + 1] == ids[..k] + [ids[k]];
          assert Linked(before, a, b) <==> Linked(links0, a, b) || (a == from && b in ids[..k] && Scope(f) <= b);
        }
      }
      assert ids[..|ids|] == ids;
    }
  }

  method LinkFileCalls(defs: seq<Definition>, f: FileCalls, links0: Links) returns (links: Links)
    ensures forall a, b :: Linked(links, a, b) <==> Linked(links0, a, b) || CalledIn(defs, f, |f.calls|, a, b)
  {
    links := links0;
    for n := 0 to |f.calls|
      invariant forall a, b :: Linked(links, a, b) <==> Linked(links0, a, b) || CalledIn(defs, f, n, a, b)
    {
      ghost var before := links;
      links := LinkCall(defs, f, f.calls[n].0, f.calls[n].1, links);
      forall a, b ensures Linked(links, a, b) <==> Linked(links0, a, b) || CalledIn(defs, f, n + 1, a, b) {
        CalledStep(defs, f, n, a, b);
        assert Linked(before, a, b) <==> Linked(links0, a, b) || CalledIn(defs, f, n, a, b);
      }
    }
  }

  lemma CalledStep(defs: seq<Definition>, f: FileCalls, n: nat, a: string, b: string)
    requires n < |f.calls|
    ensures CalledIn(defs, f, n + 1, a, b) <==>
              CalledIn(defs, f, n, a, b) || (a == Scope(f) + f.calls[n].0 && CallTarget(defs, f, f.calls[n].1, b))
  {
    if CalledIn(defs, f, n + 1, a, b) {
      var i :| 0 <= i < n + 1 && a == Scope(f) + f.calls[i].0 && CallTarget(defs, f, f.calls[i].1, b);
      assert i == n || i < n;
    }
  }

  /** _build_calls, up to the final deduplication. */
  method LinkCalls(defs: seq<Definition>, files: seq<FileCalls>) returns (links: Links)
    ensures forall a, b :: Linked(links, a, b) <==> CalledBefore(defs, files, |files|, a, b)
  {
    links := map[];
    for m := 0 to |files|
      invariant forall a, b :: Linked(links, a, b) <==> CalledBefore(defs, files, m, a, b)
    {
      ghost var before := links;
      links := LinkFileCalls(defs, files[m], links);
      forall a, b ensures Linked(links, a, b) <==> CalledBefore(defs, files, m + 1, a, b) {
        assert Linked(before, a, b) <==> CalledBefore(defs, files, m, a, b);
        FilesStep(defs, files, m, a, b);
      }
    }
  }

  lemma FilesStep(defs: seq<Definition>, files: seq<FileCalls>, m: nat, a: string, b: string)
    requires m < |files|
    ensures CalledBefore(defs, files, m + 1, a, b) <==>
              CalledBefore(defs, files, m, a, b) || CalledIn(defs, files[m], |files[m].calls|, a, b)
  {
    if CalledBefore(defs, files, m + 1, a, b) {
      var j :| 0 <= j < m + 1 && CalledIn(defs, files[j], |files[j].calls|, a, b);
      assert j == m || j < m;
    }
  }

  // --------------------------------------------------------- deduplication

  /** list(set(s)): the elements once each, in any order. */
  method Deduplicate(s: seq<string>) returns (r: seq<string>)
    ensures NoRepeats(r) && forall x :: x in r <==> x in s
  {
    var left := set x | x in s;
    r := [];
    while left != {}
      invariant NoRepeats(r)
      invariant forall x :: x in r ==> x !in left
      invariant forall x :: x in s <==> x in r || x in left
      decreases |left|
    {
      var x :| x in left;
      r, left := r + [x], left - {x};
    }
  }

  method DeduplicateAll(links0: Links) returns (links: Links)
    ensures links.Keys == links0.Keys
    ensures forall k :: k in links ==> NoRepeats(links[k])
    ensures forall a, b :: Linked(links, a, b) <==> Linked(links0, a, b)
  {
    links := links0;
    var left := links0.Keys;
    while left != {}
      invariant links.Keys == links0.Keys && left <= links0.Keys
      invariant forall k :: k in links && k !in left ==> NoRepeats(links[k])
      invariant forall a, b :: Linked(links, a, b) <==> Linked(links0, a, b)
      decreases |left|
    {
      var k :| k in left;
      var list := Deduplicate(links[k]);
      ghost var before := links;
      links := links[k := list];
      left := left - {k};
      forall a, b ensures Linked(links, a, b) <==> Linked(links0, a, b) {
        assert Linked(before, a, b) <==> Linked(links0, a, b);
      }
    }
  }

  // ----------------------------------------------------------------- build

  /** A class or function and the file it is in. */
  datatype Placed = Placed(file: string, id: string)

  /** The two passes that list what a file contains. */
  method LinkContains(classes: seq<Placed>, functions: seq<Placed>) returns (links: Links)
    ensures forall a, b :: Linked(links, a, b) <==> Placed(a, b) in classes || Placed(a, b) in functions
  {
    links := LinkPlaced(classes, map[]);
    links := LinkPlaced(functions, links);
  }

  method LinkPlaced(placed: seq<Placed>, links0: Links) returns (links: Links)
    ensures forall a, b :: Linked(links, a, b) <==> Linked(links0, a, b) || Placed(a, b) in placed
  {
    links := links0;
    for n := 0 to |placed|
      invariant forall a, b :: Linked(links, a, b) <==> Linked(links0, a, b) || Placed(a, b) in placed[..n]
    {
      links := Link(links, placed[n].file, placed[n].id);
      assert placed[..n + 1] == placed[..n] + [placed[n]];
    }
    assert placed[..|placed|] == placed;
  }

  method BuildModuleMap(modules: seq<Module>) returns (moduleMap: map<string, string>)
    ensures moduleMap == ModuleMap(modules)
  {
    moduleMap := map[];
    for n := 0 to |modules|
      invariant moduleMap == ModuleMap(modules[..n])
    {
      assert modules[..n + 1][..n] == modules[..n];
      moduleMap := moduleMap[modules[n].name := modules[n].file];
    }
    assert modules[..|modules|] == modules;
  }

  /** RelationshipBuilder.build on a fresh model; `defs` are the functions and methods by name. */
  method Build(classes: seq<Placed>, functions: seq<Placed>, modules: seq<Module>, imports: seq<Import>,
               defs: seq<Definition>, files: seq<FileCalls>)
      returns (contains: Links, dependsOn: Links, calls: Links)
    // a file contains exactly its classes and functions
    ensures forall a, b :: a in contains && b in contains[a] <==> Placed(a, b) in classes || Placed(a, b) in functions
    // a file depends on exactly the files its imports resolve to
    ensures forall a, b :: a in dependsOn && b in dependsOn[a] <==> Imports(modules, imports, a, b)
    // a caller is linked to exactly the targets of its calls
    ensures forall a, b :: a in calls && b in calls[a] <==> Called(defs, files, a, b)
    ensures forall k :: k in contains ==> NoRepeats(contains[k])
    ensures forall k :: k in dependsOn ==> NoRepeats(dependsOn[k])
    ensures forall k :: k in calls ==> NoRepeats(calls[k])
  {
    contains := LinkContains(classes, functions);
    var moduleMap := BuildModuleMap(modules);
    dependsOn := LinkImports(moduleMap, imports);
    calls := LinkCalls(defs, files);
    contains := DeduplicateAll(contains);
    calls := DeduplicateAll(calls);
    dependsOn := DeduplicateAll(dependsOn);
    forall a, b ensures a in dependsOn && b in dependsOn[a] <==> Imports(modules, imports, a, b) {
      assert Linked(dependsOn, a, b) <==> Depends(moduleMap, imports, |imports|, a, b);
      DependsMeans(modules, imports, a, b);
    }
    forall a, b ensures a in calls && b in calls[a] <==> Called(defs, files, a, b) {
      assert Linked(calls, a, b) <==> CalledBefore(defs, files, |files|, a, b);
      CalledMeans(defs, files, a, b);
    }
    forall a, b ensures a in contains && b in contains[a] <==> Placed(a, b) in classes || Placed(a, b) in functions {
      assert Linked(contains, a, b) <==> Placed(a, b) in classes || Placed(a, b) in functions;
    }
  }

  // ------------------------------------------------ what the links come from

  /** Module `k` is the last one of its name. */
  predicate IsLastOfName(modules: seq<Module>, k: nat) {
    k < |modules| && forall m :: k < m < |modules| ==> modules[m].name != modules[k].name
  }

  lemma {:induction false} ModuleMapLast(modules: seq<Module>, name: string) returns (k: int)
    ensures name in ModuleMap(modules) ==>
              0 <= k < |modules| && IsLastOfName(modules, k) && modules[k] == Module(name, ModuleMap(modules)[name])
    ensures name !in ModuleMap(modules) ==> forall m :: 0 <= m < |modules| ==> modules[m].name != name
  {
    k := 0;
    if modules != [] {
      var n := |modules| - 1;
      k := ModuleMapLast(modules[..n], name);
      if modules[n].name == name {
        k := n;
      }
    }
  }

  lemma ModuleMapMeans(modules: seq<Module>, name: string)
    ensures name in ModuleMap(modules) <==> exists k :: 0 <= k < |modules| && modules[k].name == name
    ensures forall k :: 0 <= k < |modules| && IsLastOfName(modules, k) && modules[k].name == name ==>
              name in ModuleMap(modules) && ModuleMap(modules)[name] == modules[k].file
  {
    var last := ModuleMapLast(modules, name);
    forall k | 0 <= k < |modules| && IsLastOfName(modules, k) && modules[k].name == name
      ensures name in ModuleMap(modules) && ModuleMap(modules)[name] == modules[k].file
    {
      assert name in ModuleMap(modules);
      assert k == last;
    }
  }

  /** `name` is the imported name or one of the packages above it, and a module; none that is longer is. */
  predicate IsLongestModule(modules: seq<Module>, target: string, name: string) {
    && (name == target || name + "." <= target)
    && (exists k :: 0 <= k < |modules| && modules[k].name == name)
    && forall k :: 0 <= k < |modules| && (modules[k].name == target || modules[k].name + "." <= target) ==>
         |modules[k].name| <= |name|
  }

  /** Some import of file `a` resolves to file `b`: that of the last module with the longest fitting name. */
  predicate Imports(modules: seq<Module>, imports: seq<Import>, a: string, b: string) {
    exists i, k :: 0 <= i < |imports| && 0 <= k < |modules| && imports[i].file == a && modules[k].file == b
                   && Resolves(modules, imports[i].target, k)
  }

  /** What the import of `target` resolves to, in the list of modules. */
  predicate Resolves(modules: seq<Module>, target: string, k: nat) {
    k < |modules| && IsLastOfName(modules, k) && IsLongestModule(modules, target, modules[k].name)
  }

  lemma ResolvesToLast(modules: seq<Module>, target: string, b: string) returns (k: nat)
    requires ResolvesTo(ModuleMap(modules), target, b)
    ensures Resolves(modules, target, k) && modules[k].file == b
  {
    var all := ModuleMap(modules);
    var p :| p in all && DottedPrefix(p, target) && all[p] == b
             && forall q :: q in all && DottedPrefix(q, target) ==> |q| <= |p|;
    k := ModuleMapLast(modules, p);
    forall m | 0 <= m < |modules| && (modules[m].name == target || modules[m].name + "." <= target)
      ensures |modules[m].name| <= |p|
    {
      ModuleMapMeans(modules, modules[m].name);
      assert DottedPrefix(modules[m].name, target);
    }
  }

  lemma LastIsResolved(modules: seq<Module>, target: string, k: nat)
    requires Resolves(modules, target, k)
    ensures ResolvesTo(ModuleMap(modules), target, modules[k].file)
  {
    var all, p := ModuleMap(modules), modules[k].name;
    ModuleMapMeans(modules, p);
    forall q | q in all && DottedPrefix(q, target) ensures |q| <= |p| {
      var m := ModuleMapLast(modules, q);
      assert modules[m].name == q;
    }
    assert p in all && DottedPrefix(p, target) && all[p] == modules[k].file;
  }

  lemma DependsMeans(modules: seq<Module>, imports: seq<Import>, a: string, b: string)
    ensures Depends(ModuleMap(modules), imports, |imports|, a, b) <==> Imports(modules, imports, a, b)
  {
    if Depends(ModuleMap(modules), imports, |imports|, a, b) {
      var i :| 0 <= i < |imports| && imports[i].file == a && ResolvesTo(ModuleMap(modules), imports[i].target, b);
      var k := ResolvesToLast(modules, imports[i].target, b);
      assert imports[i].file == a && modules[k].file == b;
    }
    if Imports(modules, imports, a, b) {
      var i, k :| 0 <= i < |imports| && 0 <= k < |modules| && imports[i].file == a && modules[k].file == b
                  && Resolves(modules, imports[i].target, k);
      LastIsResolved(modules, imports[i].target, k);
    }
  }

  /** Definition `k` is the only one of its name. */
  predicate IsOnlyOne(defs: seq<Definition>, k: nat) {
    k < |defs| && forall m :: 0 <= m < |defs| && defs[m].name == defs[k].name ==> m == k
  }

  /**
   * Call `i` of the file links caller `a` to definition `b`: both names are inside the module of the file,
   * or inside the file itself if it has no module id; only a definition that is alone with its name may be elsewhere.
   */
  predicate Calls(defs: seq<Definition>, f: FileCalls, i: nat, a: string, b: string)
    requires i < |f.calls|
  {
    var inside := (if f.moduleId == "" then f.fileId else f.moduleId) + "::";
    && a == inside + f.calls[i].0
    && exists k :: 0 <= k < |defs| && defs[k].name == f.calls[i].1 && defs[k].id == b
                   && (IsOnlyOne(defs, k) || inside <= b)
  }

  predicate Called(defs: seq<Definition>, files: seq<FileCalls>, a: string, b: string) {
    exists j, i :: 0 <= j < |files| && 0 <= i < |files[j].calls| && Calls(defs, files[j], i, a, b)
  }

  /** One definition of the name at `k`, or two at `k` and `m`. */
  lemma {:induction false} NamedOnes(defs: seq<Definition>, name: string) returns (k: int, m: int)
    ensures |IdsNamed(defs, name)| == 0 ==> forall i :: 0 <= i < |defs| ==> defs[i].name != name
    ensures |IdsNamed(defs, name)| == 1 ==> 0 <= k < |defs| && defs[k].name == name && IsOnlyOne(defs, k)
    ensures |IdsNamed(defs, name)| >= 2 ==> 0 <= k < m < |defs| && defs[k].name == name && defs[m].name == name
  {
    k, m := 0, 0;
    if defs != [] {
      var n := |defs| - 1;
      var init := defs[..n];
      k, m := NamedOnes(init, name);
      if defs[n].name == name {
        if |IdsNamed(init, name)| == 0 {
          k := n;
        } else if |IdsNamed(init, name)| == 1 {
          m := n;
        }
      }
    }
  }

  lemma OnlyOneIsCounted(defs: seq<Definition>, k: nat)
    requires k < |defs|
    ensures IsOnlyOne(defs, k) <==> |IdsNamed(defs, defs[k].name)| == 1
  {
    var name := defs[k].name;
    var i, j := NamedOnes(defs, name);
    if |IdsNamed(defs, name)| == 1 {
      assert i == k;
    } else if |IdsNamed(defs, name)| >= 2 {
      assert defs[i].name == name && defs[j].name == name;
    }
  }

  lemma CallTargetIs(defs: seq<Definition>, f: FileCalls, callee: string, b: string)
    ensures CallTarget(defs, f, callee, b) <==>
              exists k :: 0 <= k < |defs| && defs[k].name == callee && defs[k].id == b
                          && (IsOnlyOne(defs, k) || Scope(f) <= b)
  {
    IdsNamedMembers(defs, callee, b);
    forall k | 0 <= k < |defs| && defs[k].name == callee
      ensures IsOnlyOne(defs, k) <==> |IdsNamed(defs, callee)| == 1
    {
      OnlyOneIsCounted(defs, k);
    }
    if Definition(b, callee) in defs {
      var k :| 0 <= k < |defs| && defs[k] == Definition(b, callee);
      assert defs[k].name == callee && defs[k].id == b;
    } else {
      forall k | 0 <= k < |defs| && defs[k].name == callee ensures defs[k].id != b {
        assert defs[k] == Definition(defs[k].id, callee);
      }
    }
  }

  lemma CallsIs(defs: seq<Definition>, f: FileCalls, i: nat, a: string, b: string)
    requires i < |f.calls|
    ensures Calls(defs, f, i, a, b) <==> a == Scope(f) + f.calls[i].0 && CallTarget(defs, f, f.calls[i].1, b)
  {
    CallTargetIs(defs, f, f.calls[i].1, b);
  }

  lemma CalledMeans(defs: seq<Definition>, files: seq<FileCalls>, a: string, b: string)
    ensures CalledBefore(defs, files, |files|, a, b) <==> Called(defs, files, a, b)
  {
    forall j, i | 0 <= j < |files| && 0 <= i < |files[j].calls|
      ensures Calls(defs, files[j], i, a, b) <==>
                a == Scope(files[j]) + files[j].calls[i].0 && CallTarget(defs, files[j], files[j].calls[i].1, b)
    {
      CallsIs(defs, files[j], i, a, b);
    }
    if CalledBefore(defs, files, |files|, a, b) {
      var j :| 0 <= j < |files| && CalledIn(defs, files[j], |files[j].calls|, a, b);
      var i :| 0 <= i < |files[j].calls| && a == Scope(files[j]) + files[j].calls[i].0
               && CallTarget(defs, files[j], files[j].calls[i].1, b);
      assert Calls(defs, files[j], i, a, b);
    }
    if j, i :| 0 <= j < |files| && 0 <= i < |files[j].calls| && Calls(defs, files[j], i, a, b) {
      assert CalledIn(defs, files[j], |files[j].calls|, a, b);
    }
  }

  /** Every listed caller is the name of its call inside the module of its file, or inside the file without a module id. */
  lemma CallersAreInside(defs: seq<Definition>, files: seq<FileCalls>, a: string, b: string)
    requires Called(defs, files, a, b)
    ensures exists j, i :: 0 <= j < |files| && 0 <= i < |files[j].calls|
              && a == (if files[j].moduleId != "" then files[j].moduleId else files[j].fileId) + "::" + files[j].calls[i].0
              && Definition(b, files[j].calls[i].1) in defs
  {
    var j, i :| 0 <= j < |files| && 0 <= i < |files[j].calls| && Calls(defs, files[j], i, a, b);
    var k :| 0 <= k < |defs| && defs[k].name == files[j].calls[i].1 && defs[k].id == b;
    assert defs[k] == Definition(b, files[j].calls[i].1);
  }

  /** The only definition of a name is linked wherever it is. */
  lemma OnlyOneIsLinked(defs: seq<Definition>, f: FileCalls, i: nat, k: nat)
    requires i < |f.calls| && k < |defs| && defs[k].name == f.calls[i].1 && IsOnlyOne(defs, k)
    ensures f.moduleId != "" ==> Calls(defs, f, i, f.moduleId + "::" + f.calls[i].0, defs[k].id)
    ensures f.moduleId == "" ==> Calls(defs, f, i, f.fileId + "::" + f.calls[i].0, defs[k].id)
  {}

  /** A definition by module and name inside it, as the ids are built; no module name has a colon. */
  ghost predicate IsIn(d: Definition, m: string) {
    ':' !in m && exists name :: d.id == m + "::" + name
  }

  lemma ModulesAreApart(m: string, n: string, name: string)
    requires ':' !in m && ':' !in n && m + "::" <= n + "::" + name
    ensures m == n
  {
    var id, p := n + "::" + name, m + "::";
    assert id[..|p|] == p && id[|n|] == ':' && id[|m|] == p[|m|] == ':';
    assert forall k :: 0 <= k < |n| ==> id[k] == n[k] && n[k] in n;
    assert forall k :: 0 <= k < |m| ==> id[k] == p[k] == m[k] && m[k] in m;
    assert |m| == |n|;
    assert m == id[..|m|] == n;
  }

  /** Of several definitions of a name, a call in module `f.moduleId` is linked to exactly those in that module. */
  lemma SameModuleOnly(defs: seq<Definition>, f: FileCalls, i: nat, k: nat, m: string)
    requires i < |f.calls| && f.moduleId != "" && ':' !in f.moduleId
    requires k < |defs| && defs[k].name == f.calls[i].1 && !IsOnlyOne(defs, k) && IsIn(defs[k], m)
    ensures Calls(defs, f, i, f.moduleId + "::" + f.calls[i].0, defs[k].id) <==> m == f.moduleId
  {
    var name :| defs[k].id == m + "::" + name;
    var inside := f.moduleId + "::";
    if m == f.moduleId {
      assert inside <= defs[k].id;
    }
    if Calls(defs, f, i, inside + f.calls[i].0, defs[k].id) {
      var j :| 0 <= j < |defs| && defs[j].name == f.calls[i].1 && defs[j].id == defs[k].id
               && (IsOnlyOne(defs, j) || inside <= defs[k].id);
      if IsOnlyOne(defs, j) {
        assert j == k;
      } else {
        ModulesAreApart(f.moduleId, m, name);
      }
    }
  }

  lemma {:induction false} IdsNamedMembers(defs: seq<Definition>, name: string, id: string)
    ensures id in IdsNamed(defs, name) <==> Definition(id, name) in defs
  {
    if defs != [] {
      var init, last := defs[..|defs| - 1], defs[|defs| - 1];
      IdsNamedMembers(init, name, id);
      assert defs == init + [last];
    }
  }

  /** A name with one definition is linked wherever it is called from; with several, only inside its own scope. */
  lemma CallTargetMeaning(defs: seq<Definition>, f: FileCalls, callee: string, id: string)
    ensures CallTarget(defs, f, callee, id) ==> Definition(id, callee) in defs
    ensures |IdsNamed(defs, callee)| == 1 ==> (CallTarget(defs, f, callee, id) <==> Definition(id, callee) in defs)
    ensures |IdsNamed(defs, callee)| != 1 ==>
              (CallTarget(defs, f, callee, id) <==> Definition(id, callee) in defs && Scope(f) <= id)
  {
    IdsNamedMembers(defs, callee, id);
  }
}
