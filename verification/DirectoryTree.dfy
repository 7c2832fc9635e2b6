/**
 * RepositoryToolLayer.get_tree (backend/repository_tools/tools.py): the trie that
 * add_to_tree builds from file paths, and the lines format_tree prints for it.
 */
module DirectoryTree {
  import opened Basics

  /** A nested dictionary: a name maps to None (a file) or to another dictionary. */
  datatype Node = File | Dir(children: map<string, Node>)

  /** A path split at "/". */
  type Path = seq<string>

  // ---------------------------------------------------------- add_to_tree

  /** Navigate, creating dictionaries on the way and replacing files that are in it, then add the file. */
  function Insert(t: map<string, Node>, parts: Path): map<string, Node>
    requires parts != []
    decreases |parts|
  {
    if |parts| == 1 then
      if parts[0] != "" then t[parts[0] := File] else t
    else
      var child := if parts[0] in t && t[parts[0]].Dir? then t[parts[0]].children else map[];
      t[parts[0] := Dir(Insert(child, parts[1..]))]
  }

  function AddToTree(t: map<string, Node>, parts: Path, depth: nat): map<string, Node> {
    if parts == [] || parts[0] == "" || |parts| > depth + 1 then t else Insert(t, parts)
  }

  function Build(paths: seq<Path>, depth: nat): map<string, Node> {
    if paths == [] then map[]
    else AddToTree(Build(paths[..|paths| - 1], depth), paths[|paths| - 1], depth)
  }

  // --------------------------------------------------------- what a trie holds

  predicate HasFile(t: map<string, Node>, p: Path)
    decreases |p|
  {
    p != [] && p[0] in t
    && if |p| == 1 then t[p[0]].File? else t[p[0]].Dir? && HasFile(t[p[0]].children, p[1..])
  }

  predicate NoEmptyDir(n: Node) {
    n.Dir? ==> forall k :: k in n.children ==> n.children[k] != Dir(map[]) && NoEmptyDir(n.children[k])
  }

  predicate WellFormed(p: Path) {
    p != [] && p[0] != "" && p[|p| - 1] != ""
  }

  /** Neither path continues the other. */
  predicate Apart(p: Path, q: Path) {
    p != q ==> !(p <= q) && !(q <= p)
  }

  predicate PrefixFree(paths: seq<Path>, depth: nat) {
    forall i, j :: 0 <= i < |paths| && 0 <= j < |paths| && |paths[i]| <= depth + 1 && |paths[j]| <= depth + 1 ==>
      Apart(paths[i], paths[j])
  }

  predicate Listed(paths: seq<Path>, depth: nat, p: Path) {
    p in paths && |p| <= depth + 1
  }

  /** Path `i` is short enough, and no later path continues it or is continued by it. */
  predicate Survives(paths: seq<Path>, depth: nat, i: nat)
    requires i < |paths|
  {
    && |paths[i]| <= depth + 1
    && forall j :: i < j < |paths| && |paths[j]| <= depth + 1 ==> Apart(paths[i], paths[j])
  }

  /** The path is shown: nothing that is added later takes its place. */
  predicate Shown(paths: seq<Path>, depth: nat, p: Path) {
    exists i :: 0 <= i < |paths| && Survives(paths, depth, i) && paths[i] == p
  }

  lemma TailApart(p: Path, q: Path)
    requires |p| > 1 && |q| > 1 && p[0] == q[0]
    ensures Apart(p, q) <==> Apart(p[1..], q[1..])
  {
    assert p == [p[0]] + p[1..] && q == [q[0]] + q[1..];
    assert p <= q <==> p[1..] <= q[1..];
    assert q <= p <==> q[1..] <= p[1..];
  }

  /** A trie never holds a file below a file. */
  lemma {:induction false} FilesAreApart(t: map<string, Node>, p: Path, q: Path)
    requires HasFile(t, p) && HasFile(t, q)
    ensures Apart(p, q)
    decreases |p|
  {
    if p[0] == q[0] {
      if |p| == 1 {
        assert |q| == 1;
      } else {
        FilesAreApart(t[p[0]].children, p[1..], q[1..]);
        TailApart(p, q);
      }
    }
  }

  /** A non-empty dictionary without empty ones below it holds some file. */
  lemma {:induction false} SomeFile(n: Node) returns (p: Path)
    requires n.Dir? && n.children != map[] && NoEmptyDir(n)
    ensures HasFile(n.children, p)
    decreases n
  {
    var k :| k in n.children;
    if n.children[k].File? {
      p := [k];
    } else {
      var rest := SomeFile(n.children[k]);
      p := [k] + rest;
      assert p[1..] == rest;
    }
  }

  /** Insertion adds the new path and removes exactly the files that it continues or that continue it. */
  lemma {:induction false} InsertHolds(t: map<string, Node>, p: Path, q: Path)
    requires p != [] && p[|p| - 1] != ""
    ensures HasFile(Insert(t, p), q) <==> q == p || (HasFile(t, q) && Apart(q, p))
    decreases |p|
  {
    if q != [] && q[0] == p[0] {
      if |p| == 1 || |q| == 1 {
        assert p == [p[0]] + p[1..] && q == [q[0]] + q[1..];
      } else {
        var child := if p[0] in t && t[p[0]].Dir? then t[p[0]].children else map[];
        InsertHolds(child, p[1..], q[1..]);
        TailApart(q, p);
        assert q == p <==> q[1..] == p[1..] by {
          assert q == [p[0]] + q[1..] && p == [p[0]] + p[1..];
        }
      }
    }
  }

  lemma {:induction false} InsertNoEmptyDir(t: map<string, Node>, p: Path)
    requires p != [] && p[|p| - 1] != "" && NoEmptyDir(Dir(t))
    ensures NoEmptyDir(Dir(Insert(t, p))) && Insert(t, p) != map[]
    decreases |p|
  {
    if |p| > 1 {
      var child := if p[0] in t && t[p[0]].Dir? then t[p[0]].children else map[];
      InsertNoEmptyDir(child, p[1..]);
    }
    assert p[0] in Insert(t, p);
  }

  lemma ShownNext(init: seq<Path>, last: Path, depth: nat, p: Path)
    ensures Shown(init + [last], depth, p) <==>
              if |last| <= depth + 1 then p == last || (Shown(init, depth, p) && Apart(p, last)) else Shown(init, depth, p)
  {
    var paths := init + [last];
    assert Survives(paths, depth, |init|) <==> |last| <= depth + 1;
    forall i | 0 <= i < |init|
      ensures Survives(paths, depth, i) <==> Survives(init, depth, i) && (|last| <= depth + 1 ==> Apart(init[i], last))
    {
      assert paths[i] == init[i] && forall j :: 0 <= j < |init| ==> paths[j] == init[j];
      assert paths[|init|] == last;
    }
    if i :| 0 <= i < |init| && Survives(init, depth, i) && init[i] == p {
      assert paths[i] == p;
    }
    if i :| 0 <= i < |paths| && Survives(paths, depth, i) && paths[i] == p {
      assert i < |init| ==> init[i] == p;
    }
    assert paths[|init|] == last;
  }

  /** Whatever the paths, the trie holds exactly those that nothing later replaces, and no empty directory. */
  lemma {:induction false} BuildShows(paths: seq<Path>, depth: nat)
    requires forall p :: p in paths ==> WellFormed(p)
    ensures forall p :: HasFile(Build(paths, depth), p) <==> Shown(paths, depth, p)
    ensures NoEmptyDir(Dir(Build(paths, depth)))
  {
    if paths != [] {
      var init, last := paths[..|paths| - 1], paths[|paths| - 1];
      assert paths == init + [last] && last in paths;
      BuildShows(init, depth);
      if |last| <= depth + 1 {
        InsertNoEmptyDir(Build(init, depth), last);
      }
      forall p ensures HasFile(Build(paths, depth), p) <==> Shown(paths, depth, p) {
        ShownNext(init, last, depth, p);
        if |last| <= depth + 1 {
          InsertHolds(Build(init, depth), last, p);
        }
      }
    }
  }

  /** The trie of prefix-free paths holds exactly the listed paths, and no empty directory. */
  lemma BuildHolds(paths: seq<Path>, depth: nat)
    requires (forall p :: p in paths ==> WellFormed(p)) && PrefixFree(paths, depth)
    ensures forall p :: HasFile(Build(paths, depth), p) <==> Listed(paths, depth, p)
    ensures NoEmptyDir(Dir(Build(paths, depth)))
  {
    BuildShows(paths, depth);
    forall p ensures Shown(paths, depth, p) <==> Listed(paths, depth, p) {
      if Listed(paths, depth, p) {
        var i :| 0 <= i < |paths| && paths[i] == p;
        assert Survives(paths, depth, i);
      }
    }
  }

  /** Exactly the prefix-free inputs keep all their paths: no trie can hold both a file and a path below it. */
  lemma BuildHoldsIffPrefixFree(paths: seq<Path>, depth: nat)
    requires forall p :: p in paths ==> WellFormed(p)
    ensures (forall p :: HasFile(Build(paths, depth), p) <==> Listed(paths, depth, p)) <==> PrefixFree(paths, depth)
  {
    if PrefixFree(paths, depth) {
      BuildHolds(paths, depth);
    } else if forall p :: HasFile(Build(paths, depth), p) <==> Listed(paths, depth, p) {
      var i, j :| 0 <= i < |paths| && 0 <= j < |paths| && |paths[i]| <= depth + 1 && |paths[j]| <= depth + 1
                  && !Apart(paths[i], paths[j]);
      assert Listed(paths, depth, paths[i]) && Listed(paths, depth, paths[j]);
      FilesAreApart(Build(paths, depth), paths[i], paths[j]);
    }
  }

  /** Tries without empty directories are determined by their files. */
  lemma {:induction false} TreeIsItsFiles(a: Node, b: Node)
    requires a.Dir? && b.Dir? && NoEmptyDir(a) && NoEmptyDir(b)
    requires forall p :: HasFile(a.children, p) <==> HasFile(b.children, p)
    ensures a == b
    decreases a
  {
    forall k | k in a.children || k in b.children
      ensures k in a.children && k in b.children && a.children[k] == b.children[k]
    {
      NameInBoth(a, b, k);
      NameInBoth(b, a, k);
      var x, y := a.children[k], b.children[k];
      if x.Dir? && y.Dir? {
        forall p ensures HasFile(x.children, p) <==> HasFile(y.children, p) {
          assert ([k] + p)[1..] == p;
          if p != [] {
            assert HasFile(a.children, [k] + p) <==> HasFile(x.children, p);
            assert HasFile(b.children, [k] + p) <==> HasFile(y.children, p);
          }
        }
        TreeIsItsFiles(x, y);
      }
    }
    assert a.children == b.children;
  }

  lemma NameInBoth(a: Node, b: Node, k: string)
    requires a.Dir? && b.Dir? && NoEmptyDir(a)
    requires forall p :: HasFile(a.children, p) <==> HasFile(b.children, p)
    ensures k in a.children ==> k in b.children && (a.children[k].File? <==> b.children[k].File?)
  {
    if k in a.children {
      if a.children[k].File? {
        assert HasFile(a.children, [k]);
        assert HasFile(b.children, [k]);
      } else {
        var below := SomeFile(a.children[k]);
        assert ([k] + below)[1..] == below;
        assert HasFile(a.children, [k] + below);
        assert HasFile(b.children, [k] + below);
      }
    }
  }

  /** The order in which the paths are added does not matter, nor does adding one twice. */
  lemma BuildIsOrderFree(xs: seq<Path>, ys: seq<Path>, depth: nat)
    requires (forall p :: p in xs ==> WellFormed(p)) && PrefixFree(xs, depth)
    requires forall p :: p in xs <==> p in ys
    ensures Build(xs, depth) == Build(ys, depth)
  {
    forall i, j | 0 <= i < |ys| && 0 <= j < |ys| && |ys[i]| <= depth + 1 && |ys[j]| <= depth + 1
      ensures Apart(ys[i], ys[j])
    {
      assert ys[i] in xs && ys[j] in xs;
      var m :| 0 <= m < |xs| && xs[m] == ys[i];
      var n :| 0 <= n < |xs| && xs[n] == ys[j];
    }
    BuildHolds(xs, depth);
    BuildHolds(ys, depth);
    TreeIsItsFiles(Dir(Build(xs, depth)), Dir(Build(ys, depth)));
  }

  // ---------------------------------------------------------- format_tree

  lemma {:induction false} LeastKeyExists(s: set<string>) returns (k: string)
    requires s != {}
    ensures k in s && forall j :: j in s ==> StrLe(k, j)
  {
    var x :| x in s;
    var rest := s - {x};
    assert s == {x} + rest;
    StrLeRefl(x);
    k := x;
    if rest != {} {
      var m := LeastKeyExists(rest);
      StrLeTotal(x, m);
      if StrLe(x, m) {
        forall j | j in rest ensures StrLe(x, j) {
          StrLeTransitive(x, m, j);
        }
      } else {
        k := m;
      }
    }
  }

  ghost function LeastKey(s: set<string>): (k: string)
    requires s != {}
    ensures k in s && forall j :: j in s ==> StrLe(k, j)
  {
    assert exists k :: k in s && forall j :: j in s ==> StrLe(k, j) by {
      var k := LeastKeyExists(s);
    }
    var k :| k in s && forall j :: j in s ==> StrLe(k, j);
    k
  }

  /** sorted(node.items()). */
  ghost function Items(m: map<string, Node>): (items: seq<(string, Node)>)
    ensures forall it :: it in items ==> it.0 in m && m[it.0] == it.1
    ensures forall k :: k in m ==> (k, m[k]) in items
    decreases |m.Keys|
  {
    if m.Keys == {} then []
    else
      var k := LeastKey(m.Keys);
      var m' := m - {k};
      var rest := Items(m');
      assert forall j :: j in m && j != k ==> j in m' && m'[j] == m[j];
      [(k, m[k])] + rest
  }

  /** The names in ascending order. */
  ghost function Names(keys: set<string>): seq<string> {
    if keys == {} then [] else [LeastKey(keys)] + Names(keys - {LeastKey(keys)})
  }

  lemma {:induction false} NamesCount(m: map<string, Node>)
    ensures |Names(m.Keys)| == |Items(m)|
    decreases |m.Keys|
  {
    if m.Keys != {} {
      var k := LeastKey(m.Keys);
      NamesCount(m - {k});
      assert (m - {k}).Keys == m.Keys - {k};
    }
  }

  lemma {:induction false} NameOfItem(m: map<string, Node>, i: nat)
    requires i < |Names(m.Keys)|
    ensures |Names(m.Keys)| == |Items(m)|
    ensures Names(m.Keys)[i] in m && Items(m)[i] == (Names(m.Keys)[i], m[Names(m.Keys)[i]])
    decreases |m.Keys|
  {
    NamesCount(m);
    var k := LeastKey(m.Keys);
    var rest := m - {k};
    assert rest.Keys == m.Keys - {k};
    if i > 0 {
      NameOfItem(rest, i - 1);
      var name := Names(rest.Keys)[i - 1];
      assert m[name] == rest[name];
    }
  }

  lemma {:induction false} NamesAreKeys(keys: set<string>, i: nat)
    requires i < |Names(keys)|
    ensures Names(keys)[i] in keys
  {
    if i > 0 {
      NamesAreKeys(keys - {LeastKey(keys)}, i - 1);
    }
  }

  lemma {:induction false} NamesSorted(keys: set<string>, i: nat, j: nat)
    requires i < j < |Names(keys)|
    ensures StrLe(Names(keys)[i], Names(keys)[j]) && Names(keys)[i] != Names(keys)[j]
  {
    var rest := keys - {LeastKey(keys)};
    if i > 0 {
      NamesSorted(rest, i - 1, j - 1);
    } else {
      NamesAreKeys(rest, j - 1);
    }
  }

  lemma ItemsSorted(m: map<string, Node>, i: nat, j: nat)
    requires i < j < |Items(m)|
    ensures StrLe(Items(m)[i].0, Items(m)[j].0) && Items(m)[i].0 != Items(m)[j].0
  {
    NamesCount(m);
    NameOfItem(m, i);
    NameOfItem(m, j);
    NamesSorted(m.Keys, i, j);
  }

  lemma ItemsDetermineMap(m: map<string, Node>, n: map<string, Node>)
    requires Items(m) == Items(n)
    ensures m == n
  {
    assert forall k :: k in m ==> k in n && n[k] == m[k];
    assert forall k :: k in n ==> k in m;
  }

  const ITEM := "├── "
  const LAST_ITEM := "└── "
  const BELOW_ITEM := "│   "
  const BELOW_LAST := "    "

  predicate PrintsAsDir(n: Node) {
    n.Dir? && n.children != map[]
  }

  /** One printed line. */
  function Text(prefix: string, isLast: bool, name: string, isDir: bool): string {
    prefix + (if isLast then LAST_ITEM else ITEM) + name + (if isDir then "/" else "")
  }

  /** The iterations of format_tree's loop from item `i` on. */
  ghost function Lines(n: Node, prefix: string, i: nat): seq<string>
    requires n.Dir? && i <= |Items(n.children)|
    decreases n, |Items(n.children)| - i
  {
    var items := Items(n.children);
    if i == |items| then []
    else
      var isLast := i == |items| - 1;
      var name, sub := items[i].0, items[i].1;
      [Text(prefix, isLast, name, PrintsAsDir(sub))]
      + (if PrintsAsDir(sub) then Lines(sub, prefix + (if isLast then BELOW_LAST else BELOW_ITEM), 0) else [])
      + Lines(n, prefix, i + 1)
  }

  ghost function FormatTree(n: Node, prefix: string): seq<string>
    requires n.Dir?
  {
    Lines(n, prefix, 0)
  }

  predicate IsItemChar(c: char) {
    c == ITEM[0] || c == LAST_ITEM[0]
  }

  /** Every line carries the prefix and four more characters. */
  predicate Indented(lines: seq<string>, prefix: string) {
    forall line :: line in lines ==> |line| >= |prefix| + 4 && StartsWith(line, prefix)
  }

  lemma IndentedDeeper(lines: seq<string>, prefix: string, more: string)
    requires Indented(lines, prefix + more)
    ensures Indented(lines, prefix)
  {
    forall line | line in lines ensures |line| >= |prefix| + 4 && StartsWith(line, prefix) {
      assert line[..|prefix|] == line[..|prefix + more|][..|prefix|];
    }
  }

  /** The line of item `i`. */
  ghost function ItemText(n: Node, prefix: string, i: nat): string
    requires n.Dir? && i < |Items(n.children)|
  {
    var items := Items(n.children);
    Text(prefix, i == |items| - 1, items[i].0, PrintsAsDir(items[i].1))
  }

  /** What the lines of one item's subtree look like from outside. */
  ghost function Below(sub: Node, prefix: string, isLast: bool): seq<string> {
    if PrintsAsDir(sub) then Lines(sub, prefix + (if isLast then BELOW_LAST else BELOW_ITEM), 0) else []
  }

  lemma LinesUnfold(n: Node, prefix: string, i: nat)
    requires n.Dir? && i < |Items(n.children)|
    ensures var items := Items(n.children);
            Lines(n, prefix, i) == [ItemText(n, prefix, i)] + Below(items[i].1, prefix, i == |items| - 1) + Lines(n, prefix, i + 1)
  {}

  lemma ItemTextShape(n: Node, prefix: string, i: nat)
    requires n.Dir? && i < |Items(n.children)|
    ensures var line := ItemText(n, prefix, i);
            |line| >= |prefix| + 4 && StartsWith(line, prefix) && IsItemChar(line[|prefix|])
  {}

  lemma {:induction false} LinesIndented(n: Node, prefix: string, i: nat)
    requires n.Dir? && i <= |Items(n.children)|
    ensures Indented(Lines(n, prefix, i), prefix)
    decreases n, |Items(n.children)| - i
  {
    var items := Items(n.children);
    if i < |items| {
      LinesUnfold(n, prefix, i);
      ItemTextShape(n, prefix, i);
      LinesIndented(n, prefix, i + 1);
      var sub := items[i].1;
      if PrintsAsDir(sub) {
        assert items[i] in items;
        var more := if i == |items| - 1 then BELOW_LAST else BELOW_ITEM;
        LinesIndented(sub, prefix + more, 0);
        IndentedDeeper(Lines(sub, prefix + more, 0), prefix, more);
      }
    }
  }

  /** The first line, if any, is an item line. */
  lemma LinesShape(n: Node, prefix: string, i: nat)
    requires n.Dir? && i <= |Items(n.children)|
    ensures i < |Items(n.children)| <==> Lines(n, prefix, i) != []
    ensures i < |Items(n.children)| ==>
              |Lines(n, prefix, i)[0]| > |prefix| && IsItemChar(Lines(n, prefix, i)[0][|prefix|])
  {
    if i < |Items(n.children)| {
      LinesUnfold(n, prefix, i);
      ItemTextShape(n, prefix, i);
    }
  }

  /** Names have no "/" in them: they come from splitting at it. */
  predicate CleanNames(n: Node) {
    n.Dir? ==> forall k :: k in n.children ==> '/' !in k && CleanNames(n.children[k])
  }

  lemma FirstItemAt(whole: seq<string>, s: seq<string>, r: seq<string>, at: nat)
    requires whole == s + r
    requires forall x :: x in s ==> |x| > at && !IsItemChar(x[at])
    requires r != [] ==> |r[0]| > at && IsItemChar(r[0][at])
    ensures forall i :: 0 <= i < |s| ==> |whole[i]| > at && !IsItemChar(whole[i][at])
    ensures r != [] ==> |whole[|s|]| > at && IsItemChar(whole[|s|][at])
  {
    forall i | 0 <= i < |s| ensures whole[i] in s {
      assert whole[i] == s[i];
    }
  }

  /** Two lists of the form deeper-lines then item-lines can only be equal part by part. */
  lemma SplitAtItem(s1: seq<string>, r1: seq<string>, s2: seq<string>, r2: seq<string>, at: nat)
    requires s1 + r1 == s2 + r2
    requires forall x :: x in s1 ==> |x| > at && !IsItemChar(x[at])
    requires forall x :: x in s2 ==> |x| > at && !IsItemChar(x[at])
    requires r1 != [] ==> |r1[0]| > at && IsItemChar(r1[0][at])
    requires r2 != [] ==> |r2[0]| > at && IsItemChar(r2[0][at])
    ensures s1 == s2 && r1 == r2
  {
    var whole := s1 + r1;
    FirstItemAt(whole, s1, r1, at);
    FirstItemAt(whole, s2, r2, at);
    assert |s1| == |s2|;
    assert s1 == whole[..|s1|] && s2 == whole[..|s1|];
    assert r1 == whole[|s1|..] && r2 == whole[|s1|..];
  }

  /** A printed item line determines connector, name and kind. */
  lemma ItemLine(prefix: string, c1: string, c2: string, n1: string, n2: string, d1: bool, d2: bool)
    requires |c1| == |c2| == 4 && '/' !in n1 && '/' !in n2
    requires prefix + c1 + n1 + (if d1 then "/" else "") == prefix + c2 + n2 + (if d2 then "/" else "")
    ensures c1 == c2 && n1 == n2 && d1 == d2
  {
    var t1, t2 := n1 + (if d1 then "/" else ""), n2 + (if d2 then "/" else "");
    var l1, l2 := prefix + c1 + t1, prefix + c2 + t2;
    assert l1 == prefix + c1 + n1 + (if d1 then "/" else "") && l2 == prefix + c2 + n2 + (if d2 then "/" else "");
    assert c1 == l1[|prefix|..|prefix| + 4] && c2 == l2[|prefix|..|prefix| + 4];
    assert t1 == l1[|prefix| + 4..] && t2 == l2[|prefix| + 4..];
    assert d1 <==> t1 != "" && t1[|t1| - 1] == '/';
    assert d2 <==> t2 != "" && t2[|t2| - 1] == '/';
    assert n1 == t1[..|n1|] && n2 == t2[..|n2|];
  }

  lemma BelowIsDeeper(sub: Node, prefix: string, isLast: bool)
    ensures forall x :: x in Below(sub, prefix, isLast) ==> |x| > |prefix| && !IsItemChar(x[|prefix|])
  {
    if PrintsAsDir(sub) {
      var deeper := prefix + (if isLast then BELOW_LAST else BELOW_ITEM);
      LinesIndented(sub, deeper, 0);
      forall x | x in Below(sub, prefix, isLast) ensures |x| > |prefix| && !IsItemChar(x[|prefix|]) {
        assert x[|prefix|] == x[..|deeper|][|prefix|] == deeper[|prefix|];
      }
    }
  }

  /** An item line, deeper lines and further item lines can be told apart. */
  lemma PartsAgree(prefix: string, last1: bool, last2: bool, n1: string, n2: string, d1: bool, d2: bool,
                   s1: seq<string>, r1: seq<string>, s2: seq<string>, r2: seq<string>)
    requires '/' !in n1 && '/' !in n2
    requires [Text(prefix, last1, n1, d1)] + s1 + r1 == [Text(prefix, last2, n2, d2)] + s2 + r2
    requires forall x :: x in s1 ==> |x| > |prefix| && !IsItemChar(x[|prefix|])
    requires forall x :: x in s2 ==> |x| > |prefix| && !IsItemChar(x[|prefix|])
    requires r1 != [] ==> |r1[0]| > |prefix| && IsItemChar(r1[0][|prefix|])
    requires r2 != [] ==> |r2[0]| > |prefix| && IsItemChar(r2[0][|prefix|])
    ensures last1 == last2 && n1 == n2 && d1 == d2 && s1 == s2 && r1 == r2
  {
    var l1, l2 := Text(prefix, last1, n1, d1), Text(prefix, last2, n2, d2);
    assert [l1] + s1 + r1 == [l1] + (s1 + r1) && [l2] + s2 + r2 == [l2] + (s2 + r2);
    HeadAndRest(l1, s1 + r1, l2, s2 + r2, [l1] + (s1 + r1), [l2] + (s2 + r2));
    ItemLine(prefix, if last1 then LAST_ITEM else ITEM, if last2 then LAST_ITEM else ITEM, n1, n2, d1, d2);
    assert ITEM[0] != LAST_ITEM[0];
    SplitAtItem(s1, r1, s2, r2, |prefix|);
  }

  /** Two loops that print the same print the same item first, the same below it, and the same after it. */
  lemma HeadsAgree(a: Node, b: Node, prefix: string, i: nat)
    requires a.Dir? && b.Dir? && CleanNames(a) && CleanNames(b)
    requires i < |Items(a.children)| && i < |Items(b.children)|
    requires Lines(a, prefix, i) == Lines(b, prefix, i)
    ensures var xs, ys := Items(a.children), Items(b.children);
            var last := i == |xs| - 1;
            && (last <==> i == |ys| - 1) && xs[i].0 == ys[i].0
            && PrintsAsDir(xs[i].1) == PrintsAsDir(ys[i].1)
            && Below(xs[i].1, prefix, last) == Below(ys[i].1, prefix, last)
            && Lines(a, prefix, i + 1) == Lines(b, prefix, i + 1)
  {
    var xs, ys := Items(a.children), Items(b.children);
    var lastX, lastY := i == |xs| - 1, i == |ys| - 1;
    assert xs[i] in xs && ys[i] in ys;
    LinesUnfold(a, prefix, i);
    LinesUnfold(b, prefix, i);
    LinesShape(a, prefix, i + 1);
    LinesShape(b, prefix, i + 1);
    BelowIsDeeper(xs[i].1, prefix, lastX);
    BelowIsDeeper(ys[i].1, prefix, lastY);
    PartsAgree(prefix, lastX, lastY, xs[i].0, ys[i].0, PrintsAsDir(xs[i].1), PrintsAsDir(ys[i].1),
               Below(xs[i].1, prefix, lastX), Lines(a, prefix, i + 1),
               Below(ys[i].1, prefix, lastY), Lines(b, prefix, i + 1));
  }

  lemma HeadAndRest(l1: string, r1: seq<string>, l2: string, r2: seq<string>, w1: seq<string>, w2: seq<string>)
    requires w1 == w2 && w1 == [l1] + r1 && w2 == [l2] + r2
    ensures l1 == l2 && r1 == r2
  {
    assert l1 == w1[0] && l2 == w2[0] && r1 == w1[1..] && r2 == w2[1..];
  }

  /** The printed lines determine the items from `i` on. */
  lemma {:induction false} LinesDetermineItems(a: Node, b: Node, prefix: string, i: nat)
    requires a.Dir? && b.Dir? && NoEmptyDir(a) && NoEmptyDir(b) && CleanNames(a) && CleanNames(b)
    requires i <= |Items(a.children)| && i <= |Items(b.children)|
    requires Lines(a, prefix, i) == Lines(b, prefix, i)
    ensures Items(a.children)[i..] == Items(b.children)[i..]
    decreases a, |Items(a.children)| - i
  {
    LinesShape(a, prefix, i);
    LinesShape(b, prefix, i);
    if i < |Items(a.children)| {
      HeadsAgree(a, b, prefix, i);
      var (x, y) := (ItemAt(a, i), ItemAt(b, i));
      SubtreesAgree(x.1, y.1, prefix, i == |Items(a.children)| - 1);
      LinesDetermineItems(a, b, prefix, i + 1);
      ConsAgree(Items(a.children), Items(b.children), i);
    }
  }

  ghost function ItemAt(n: Node, i: nat): (item: (string, Node))
    requires n.Dir? && i < |Items(n.children)|
    ensures item == Items(n.children)[i] && item.1 < n
    ensures NoEmptyDir(n) ==> item.1 != Dir(map[]) && NoEmptyDir(item.1)
    ensures CleanNames(n) ==> CleanNames(item.1)
  {
    assert Items(n.children)[i] in Items(n.children);
    Items(n.children)[i]
  }

  lemma ConsAgree<T>(xs: seq<T>, ys: seq<T>, i: nat)
    requires i < |xs| && i < |ys| && xs[i] == ys[i] && xs[i + 1..] == ys[i + 1..]
    ensures xs[i..] == ys[i..]
  {
    assert xs[i..] == [xs[i]] + xs[i + 1..] && ys[i..] == [ys[i]] + ys[i + 1..];
  }

  lemma {:induction false} SubtreesAgree(x: Node, y: Node, prefix: string, isLast: bool)
    requires x != Dir(map[]) && y != Dir(map[]) && PrintsAsDir(x) == PrintsAsDir(y)
    requires NoEmptyDir(x) && NoEmptyDir(y) && CleanNames(x) && CleanNames(y)
    requires Below(x, prefix, isLast) == Below(y, prefix, isLast)
    ensures x == y
    decreases x
  {
    if PrintsAsDir(x) {
      LinesDetermineItems(x, y, prefix + (if isLast then BELOW_LAST else BELOW_ITEM), 0);
      assert Items(x.children)[0..] == Items(x.children) && Items(y.children)[0..] == Items(y.children);
      ItemsDetermineMap(x.children, y.children);
    }
  }

  /** Two directory trees without empty directories never print to the same lines. */
  lemma FormatTreeIsInjective(a: Node, b: Node, prefix: string)
    requires a.Dir? && b.Dir? && NoEmptyDir(a) && NoEmptyDir(b) && CleanNames(a) && CleanNames(b)
    ensures FormatTree(a, prefix) == FormatTree(b, prefix) <==> a == b
  {
    if FormatTree(a, prefix) == FormatTree(b, prefix) {
      LinesDetermineItems(a, b, prefix, 0);
      assert Items(a.children)[0..] == Items(a.children) && Items(b.children)[0..] == Items(b.children);
      ItemsDetermineMap(a.children, b.children);
    }
  }

  predicate CleanPath(p: Path) {
    forall k :: 0 <= k < |p| ==> '/' !in p[k]
  }

  lemma {:induction false} InsertClean(t: map<string, Node>, p: Path)
    requires p != [] && CleanPath(p) && CleanNames(Dir(t))
    ensures CleanNames(Dir(Insert(t, p)))
    decreases |p|
  {
    if |p| > 1 {
      InsertClean(if p[0] in t && t[p[0]].Dir? then t[p[0]].children else map[], p[1..]);
    }
  }

  lemma {:induction false} BuildClean(paths: seq<Path>, depth: nat)
    requires forall p :: p in paths ==> CleanPath(p)
    ensures CleanNames(Dir(Build(paths, depth)))
  {
    if paths != [] {
      BuildClean(paths[..|paths| - 1], depth);
      var last := paths[|paths| - 1];
      assert last in paths;
      if last != [] {
        InsertClean(Build(paths[..|paths| - 1], depth), last);
      }
    }
  }

  /** What get_tree prints below its heading. */
  ghost function PrintedTree(paths: seq<Path>, depth: nat): seq<string> {
    FormatTree(Dir(Build(paths, depth)), "")
  }

  /** Whatever the paths, the printed tree tells exactly which of them are shown. */
  lemma PrintedTreeDeterminesPaths(xs: seq<Path>, ys: seq<Path>, depth: nat)
    requires forall p :: p in xs ==> WellFormed(p) && CleanPath(p)
    requires forall p :: p in ys ==> WellFormed(p) && CleanPath(p)
    ensures PrintedTree(xs, depth) == PrintedTree(ys, depth)
            <==> forall p :: Shown(xs, depth, p) <==> Shown(ys, depth, p)
  {
    BuildShows(xs, depth);
    BuildShows(ys, depth);
    BuildClean(xs, depth);
    BuildClean(ys, depth);
    var a, b := Dir(Build(xs, depth)), Dir(Build(ys, depth));
    FormatTreeIsInjective(a, b, "");
    if forall p :: Shown(xs, depth, p) <==> Shown(ys, depth, p) {
      TreeIsItsFiles(a, b);
    }
    if a == b {
      forall p ensures Shown(xs, depth, p) <==> Shown(ys, depth, p) {
        assert HasFile(a.children, p) <==> Shown(xs, depth, p);
        assert HasFile(b.children, p) <==> Shown(ys, depth, p);
      }
    }
  }
}
