/**
 * The dictionaries of get_tree (backend/repository_tools/tools.py) as objects that
 * add_to_tree changes in place, proved against the values of DirectoryTree.
 */
module TreeInPlace {
  import opened Basics
  import D = DirectoryTree

  /** One dictionary: a name maps to None (a file) or to another dictionary. */
  class Dictionary {
    var entries: map<string, Option<Dictionary>>
    ghost var Repr: set<Dictionary>

    predicate HasDir(k: string)
      reads this
    {
      k in entries && entries[k].Some?
    }

    /** The dictionaries below form a tree: no sharing, no cycle. */
    ghost predicate Valid()
      reads this, Repr
      decreases Repr
    {
      && this in Repr
      && (forall k :: HasDir(k) ==>
            && entries[k].value in Repr && entries[k].value.Repr <= Repr - {this} && entries[k].value.Valid())
      && (forall j, k :: HasDir(j) && HasDir(k) && j != k ==> entries[j].value.Repr !! entries[k].value.Repr)
    }

    ghost function NodeAt(k: string): D.Node
      requires Valid() && k in entries
      reads this, Repr
      decreases Repr, 0
    {
      if HasDir(k) then D.Dir(entries[k].value.Contents()) else D.File
    }

    /** The nested dictionary as a value. */
    ghost function Contents(): (c: map<string, D.Node>)
      requires Valid()
      reads this, Repr
      decreases Repr, 1
    {
      map k | k in entries :: NodeAt(k)
    }

    constructor ()
      ensures Valid() && fresh(Repr) && Repr == {this} && Contents() == map[]
    {
      entries := map[];
      Repr := {this};
    }

    /**
     * The walk of add_to_tree from this dictionary: create what is missing on the way, replace a
     * file that is in it, and add the file at the end.
     */
    method Add(parts: D.Path)
      requires Valid() && parts != []
      modifies Repr
      ensures Valid() && fresh(Repr - old(Repr))
      ensures Contents() == D.Insert(old(Contents()), parts)
      decreases |parts|, 0
    {
      var name := parts[0];
      if |parts| == 1 {
        if name != "" {
          SetFile(name);
        }
        return;
      }
      ghost var before := Contents();
      assert name in entries ==> before[name] == NodeAt(name);
      if !HasDir(name) {
        SetEmpty(name);
      }
      assert Contents()[name] == NodeAt(name);
      AddBelow(name, parts[1..]);
    }

    method SetFile(name: string)
      requires Valid()
      modifies this
      ensures Valid() && Repr == old(Repr)
      ensures Contents() == old(Contents())[name := D.File]
    {
      entries := entries[name := None];
    }

    method SetEmpty(name: string)
      requires Valid()
      modifies this
      ensures Valid() && fresh(Repr - old(Repr)) && HasDir(name)
      ensures Contents() == old(Contents())[name := D.Dir(map[])]
    {
      var child := new Dictionary();
      entries := entries[name := Some(child)];
      Repr := Repr + {child};
      Replaced(name);
    }

    method AddBelow(name: string, rest: D.Path)
      requires Valid() && rest != [] && HasDir(name)
      modifies Repr
      ensures Valid() && fresh(Repr - old(Repr))
      ensures Contents() == old(Contents())[name := D.Dir(D.Insert(old(entries[name].value.Contents()), rest))]
      decreases |rest|, 1
    {
      var child := entries[name].value;
      child.Add(rest);
      Repr := Repr + child.Repr;
      Replaced(name);
    }

    /** `name` has a new or changed dictionary, the others are untouched, and `Repr` has kept up. */
    twostate lemma Replaced(name: string)
      requires old(Valid()) && HasDir(name) && entries == old(entries)[name := entries[name]]
      requires entries[name].value.Valid() && entries[name].value in entries[name].value.Repr && this !in entries[name].value.Repr
      requires Repr == old(Repr) + entries[name].value.Repr
      requires forall k :: old(HasDir(k)) && k != name ==>
                 unchanged(old(entries[k].value.Repr)) && entries[name].value.Repr !! old(entries[k].value.Repr)
      ensures Valid() && Contents() == old(Contents())[name := D.Dir(entries[name].value.Contents())]
    {
      assert HasDir(name) && entries[name].value.Repr <= Repr - {this};
      forall k | HasDir(k) && k != name
        ensures entries[k].value.Repr <= old(Repr) - {this} && entries[k].value.Repr !! entries[name].value.Repr
        ensures entries[k].value.Repr == old(entries[k].value.Repr)
        ensures entries[k].value.Valid() && entries[k].value.Contents() == old(entries[k].value.Contents())
      {
        assert old(HasDir(k)) && entries[k].value in old(entries[k].value.Repr);
      }
    }

    method FormatTree(prefix: string) returns (lines: seq<string>)
      requires Valid()
      ensures lines == D.FormatTree(D.Dir(Contents()), prefix)
      decreases Repr, 2
    {
      var names := SortedNames(entries.Keys);
      assert Contents().Keys == entries.Keys;
      lines := FormatItems(prefix, names, Contents());
    }

    /** The loop of format_tree over the sorted items. */
    method FormatItems(prefix: string, names: seq<string>, ghost contents: map<string, D.Node>) returns (lines: seq<string>)
      requires Valid() && Contents() == contents && names == D.Names(contents.Keys)
      ensures lines == D.FormatTree(D.Dir(contents), prefix)
      decreases Repr, 1
    {
      ghost var rests := Rests(contents, prefix);
      lines := [];
      for i := 0 to |names|
        invariant lines + rests[i] == rests[0]
      {
        assert IsNext(contents, prefix, rests, i);
        var item := FormatItem(prefix, names[i], i == |names| - 1, contents[names[i]]);
        assert rests[i] == item + rests[i + 1];
        Reassociate(lines, item, rests[i + 1]);
        lines := lines + item;
      }
    }

    /** The body of that loop. */
    method FormatItem(prefix: string, name: string, isLast: bool, ghost node: D.Node) returns (lines: seq<string>)
      requires Valid() && name in entries && node == Contents()[name]
      ensures lines == Item(prefix, name, isLast, node)
      decreases Repr, 0
    {
      ItemIs(prefix, name, isLast, node);
      ghost var dir := ShapeAt(name);
      if !HasDir(name) {
        return [D.Text(prefix, isLast, name, false)];
      }
      var sub := entries[name].value;
      if sub.entries.Keys == {} {
        return [D.Text(prefix, isLast, name, false)];
      }
      var below := sub.FormatTree(prefix + (if isLast then D.BELOW_LAST else D.BELOW_ITEM));
      lines := [D.Text(prefix, isLast, name, true)] + below;
    }

    lemma ShapeAt(name: string) returns (node: D.Node)
      requires Valid() && name in entries
      ensures node == Contents()[name] && (node.Dir? <==> HasDir(name))
      ensures HasDir(name) ==>
                && node == D.Dir(entries[name].value.Contents())
                && (node.children == map[] <==> entries[name].value.entries.Keys == {})
    {
      node := NodeAt(name);
      if HasDir(name) {
        assert entries[name].value.Contents().Keys == entries[name].value.entries.Keys;
      }
    }
  }

  /** The line of one item and the lines below it. */
  ghost function Item(prefix: string, name: string, isLast: bool, node: D.Node): seq<string> {
    [D.Text(prefix, isLast, name, D.PrintsAsDir(node))] + D.Below(node, prefix, isLast)
  }

  lemma ItemIs(prefix: string, name: string, isLast: bool, node: D.Node)
    ensures Item(prefix, name, isLast, node) ==
              if node.Dir? && node.children != map[]
              then [D.Text(prefix, isLast, name, true)]
                   + D.FormatTree(node, prefix + (if isLast then D.BELOW_LAST else D.BELOW_ITEM))
              else [D.Text(prefix, isLast, name, false)]
  {}

  lemma NextItem(m: map<string, D.Node>, prefix: string, i: nat)
    requires i < |D.Names(m.Keys)| == |D.Items(m)|
    ensures var names := D.Names(m.Keys);
            && names[i] in m
            && RestAt(m, prefix, i) == Item(prefix, names[i], i == |names| - 1, m[names[i]]) + RestAt(m, prefix, i + 1)
  {
    D.NameOfItem(m, i);
    D.LinesUnfold(D.Dir(m), prefix, i);
    var name := D.Names(m.Keys)[i];
    assert D.Items(m)[i] == (name, m[name]);
  }

  ghost function RestAt(m: map<string, D.Node>, prefix: string, i: nat): seq<string> {
    if i <= |D.Items(m)| then D.Lines(D.Dir(m), prefix, i) else []
  }

  lemma Tabulate(f: nat -> seq<string>, n: nat) returns (rests: seq<seq<string>>)
    ensures |rests| == n + 1 && forall i: nat :: i <= n ==> rests[i] == f(i)
  {
    rests := seq(n + 1, i requires 0 <= i <= n => f(i));
  }

  lemma RestEnds(m: map<string, D.Node>, prefix: string)
    ensures RestAt(m, prefix, 0) == D.FormatTree(D.Dir(m), prefix) && RestAt(m, prefix, |D.Names(m.Keys)|) == []
  {
    D.NamesCount(m);
  }

  /** What is left to print before each item. */
  lemma Rests(m: map<string, D.Node>, prefix: string) returns (rests: seq<seq<string>>)
    ensures |rests| == |D.Names(m.Keys)| + 1 && rests[0] == D.FormatTree(D.Dir(m), prefix) && rests[|rests| - 1] == []
    ensures forall i :: 0 <= i < |D.Names(m.Keys)| ==> IsNext(m, prefix, rests, i)
  {
    var n := |D.Names(m.Keys)|;
    rests := Tabulate((i: nat) => RestAt(m, prefix, i), n);
    RestEnds(m, prefix);
    forall i | 0 <= i < n ensures IsNext(m, prefix, rests, i) {
      RestIsNext(m, prefix, rests, i);
    }
  }

  lemma RestIsNext(m: map<string, D.Node>, prefix: string, rests: seq<seq<string>>, i: nat)
    requires i < |D.Names(m.Keys)| && i + 1 < |rests|
    requires rests[i] == RestAt(m, prefix, i) && rests[i + 1] == RestAt(m, prefix, i + 1)
    ensures IsNext(m, prefix, rests, i)
  {
    D.NamesCount(m);
    NextItem(m, prefix, i);
  }

  ghost predicate IsNext(m: map<string, D.Node>, prefix: string, rests: seq<seq<string>>, i: nat) {
    var names := D.Names(m.Keys);
    && i + 1 < |rests| && i < |names| && names[i] in m
    && rests[i] == Item(prefix, names[i], i == |names| - 1, m[names[i]]) + rests[i + 1]
  }

  method Least(keys: set<string>) returns (k: string)
    requires keys != {}
    ensures k == D.LeastKey(keys)
  {
    k :| k in keys;
    StrLeRefl(k);
    var left := keys - {k};
    while left != {}
      invariant left <= keys && k in keys
      invariant forall j :: j in keys && j !in left ==> StrLe(k, j)
      decreases |left|
    {
      var x :| x in left;
      if StrLe(x, k) {
        forall j | j in keys && j !in left ensures StrLe(x, j) {
          StrLeTransitive(x, k, j);
        }
        k := x;
      }
      StrLeTotal(x, k);
      StrLeRefl(x);
      left := left - {x};
    }
    StrLeAntisymmetric(k, D.LeastKey(keys));
  }

  method SortedNames(keys: set<string>) returns (names: seq<string>)
    ensures names == D.Names(keys)
  {
    names := [];
    var left := keys;
    while left != {}
      invariant names + D.Names(left) == D.Names(keys)
      decreases |left|
    {
      var k := Least(left);
      assert names + ([k] + D.Names(left - {k})) == (names + [k]) + D.Names(left - {k});
      names := names + [k];
      left := left - {k};
    }
  }

  /** The insertion loop of get_tree. */
  method BuildTree(paths: seq<D.Path>, depth: nat) returns (dirs: Dictionary)
    ensures dirs.Valid() && fresh(dirs.Repr) && dirs.Contents() == D.Build(paths, depth)
  {
    dirs := new Dictionary();
    for i := 0 to |paths|
      invariant dirs.Valid() && fresh(dirs.Repr)
      invariant dirs.Contents() == D.Build(paths[..i], depth)
    {
      BuildStep(paths, i, depth);
      var parts := paths[i];
      if parts != [] && parts[0] != "" && |parts| <= depth + 1 {
        dirs.Add(parts);
      }
    }
    assert paths[..|paths|] == paths;
  }

  lemma BuildStep(paths: seq<D.Path>, i: nat, depth: nat)
    requires i < |paths|
    ensures D.Build(paths[..i + 1], depth) == D.AddToTree(D.Build(paths[..i], depth), paths[i], depth)
  {
    assert paths[..i + 1][..i] == paths[..i];
  }

  /** get_tree: the insertions, then the printing. */
  method PrintTree(paths: seq<D.Path>, depth: nat) returns (lines: seq<string>)
    ensures lines == D.PrintedTree(paths, depth)
  {
    var dirs := BuildTree(paths, depth);
    lines := dirs.FormatTree("");
  }
}
