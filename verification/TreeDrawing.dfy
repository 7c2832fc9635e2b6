/**
 * The printed tree line by line: which path each line of get_tree
 * (backend/repository_tools/tools.py) stands for, in which order the lines come, and
 * how a line is drawn, in terms of the shown paths alone.
 */
module TreeDrawing {
  import opened Basics
  import opened DirectoryTree

  // ------------------------------------------------- the entries of a trie

  /** There is a file or a directory at the path. */
  predicate Holds(t: map<string, Node>, p: Path)
    decreases |p|
  {
    p != [] && p[0] in t && (|p| == 1 || (t[p[0]].Dir? && Holds(t[p[0]].children, p[1..])))
  }

  /** No name of the dictionary comes after this one. */
  predicate IsLastName(t: map<string, Node>, name: string) {
    forall k :: k in t ==> StrLe(k, name)
  }

  /** The line of an entry: the bars of its ancestors, its connector, its name, and a slash after a directory. */
  function LineOf(t: map<string, Node>, prefix: string, p: Path): string
    requires Holds(t, p)
    decreases |p|
  {
    var last := IsLastName(t, p[0]);
    if |p| == 1 then Text(prefix, last, p[0], PrintsAsDir(t[p[0]]))
    else LineOf(t[p[0]].children, prefix + if last then BELOW_LAST else BELOW_ITEM, p[1..])
  }

  /** A directory comes before what is below it; otherwise the first names that differ decide. */
  predicate Before(p: Path, q: Path)
    decreases |p|
  {
    q != [] && (p == [] || if p[0] == q[0] then Before(p[1..], q[1..]) else StrLe(p[0], q[0]))
  }

  ghost function Under(name: string, ps: seq<Path>): (r: seq<Path>)
    ensures |r| == |ps| && forall i :: 0 <= i < |ps| ==> r[i] == [name] + ps[i]
  {
    seq(|ps|, i requires 0 <= i < |ps| => [name] + ps[i])
  }

  lemma UnderMeans(name: string, ps: seq<Path>, p: Path)
    ensures p in Under(name, ps) <==> p != [] && p[0] == name && p[1..] in ps
  {
    if p != [] && p[0] == name && p[1..] in ps {
      var i :| 0 <= i < |ps| && ps[i] == p[1..];
      assert Under(name, ps)[i] == p;
    }
  }

  /** The entries in the order in which the loop of format_tree reaches them, from item `i` on. */
  ghost function Reached(n: Node, i: nat): seq<Path>
    requires n.Dir? && i <= |Items(n.children)|
    decreases n, |Items(n.children)| - i
  {
    if i == |Items(n.children)| then []
    else
      var item := ItemAt(n, i);
      [[item.0]] + Under(item.0, if PrintsAsDir(item.1) then Reached(item.1, 0) else []) + Reached(n, i + 1)
  }

  ghost function ReachedBelow(sub: Node): seq<Path> {
    if PrintsAsDir(sub) then Reached(sub, 0) else []
  }

  lemma ReachedUnfold(n: Node, i: nat)
    requires n.Dir? && i < |Items(n.children)|
    ensures var item := ItemAt(n, i);
            Reached(n, i) == [[item.0]] + Under(item.0, ReachedBelow(item.1)) + Reached(n, i + 1)
  {}

  /** The first name of the path is that of item `i` or a later one. */
  ghost predicate FromItem(n: Node, i: nat, p: Path)
    requires n.Dir?
  {
    p != [] && exists j :: i <= j < |Items(n.children)| && Items(n.children)[j].0 == p[0]
  }

  lemma FromItemNext(n: Node, i: nat, p: Path)
    requires n.Dir? && i < |Items(n.children)|
    ensures FromItem(n, i, p) <==> p != [] && (p[0] == Items(n.children)[i].0 || FromItem(n, i + 1, p))
    ensures p != [] && p[0] == Items(n.children)[i].0 ==> !FromItem(n, i + 1, p)
  {
    NotAgain(n, i, p);
  }

  /** A name comes once. */
  lemma NotAgain(n: Node, i: nat, p: Path)
    requires n.Dir? && i < |Items(n.children)|
    ensures FromItem(n, i + 1, p) ==> p[0] != Items(n.children)[i].0
  {
    if FromItem(n, i + 1, p) {
      var j :| i + 1 <= j < |Items(n.children)| && Items(n.children)[j].0 == p[0];
      ItemsSorted(n.children, i, j);
    }
  }

  lemma HoldsBelow(n: Node, i: nat, p: Path)
    requires n.Dir? && i < |Items(n.children)| && p != [] && p[0] == ItemAt(n, i).0
    ensures p[0] in n.children && n.children[p[0]] == ItemAt(n, i).1
    ensures Holds(n.children, p) <==> |p| == 1 || (PrintsAsDir(ItemAt(n, i).1) && Holds(ItemAt(n, i).1.children, p[1..]))
  {
    assert ItemAt(n, i) in Items(n.children);
  }

  /** The loop reaches exactly the entries that begin with a name it still has to visit. */
  lemma {:induction false} ReachedMeans(n: Node, i: nat, p: Path)
    requires n.Dir? && i <= |Items(n.children)|
    ensures p in Reached(n, i) <==> Holds(n.children, p) && FromItem(n, i, p)
    decreases n, |Items(n.children)| - i
  {
    if i < |Items(n.children)| {
      var item := ItemAt(n, i);
      ReachedUnfold(n, i);
      ReachedMeans(n, i + 1, p);
      FromItemNext(n, i, p);
      UnderMeans(item.0, ReachedBelow(item.1), p);
      if p != [] && p[0] == item.0 {
        HoldsBelow(n, i, p);
        BelowMeans(item.1, p[1..]);
        assert p == [item.0] <==> |p| == 1;
      }
    }
  }

  lemma BelowMeans(sub: Node, p: Path)
    ensures p in ReachedBelow(sub) <==> PrintsAsDir(sub) && Holds(sub.children, p)
    decreases sub, if sub.Dir? then |Items(sub.children)| + 1 else 0
  {
    if PrintsAsDir(sub) {
      ReachedMeans(sub, 0, p);
      if Holds(sub.children, p) {
        var item := (p[0], sub.children[p[0]]);
        assert item in Items(sub.children);
      }
    }
  }

  // ---------------------------------------------------------- their order

  predicate InOrder(ps: seq<Path>) {
    forall a, b :: 0 <= a < b < |ps| ==> Before(ps[a], ps[b])
  }

  lemma UnderInOrder(name: string, ps: seq<Path>)
    requires InOrder(ps) && forall p :: p in ps ==> p != []
    ensures InOrder([[name]] + Under(name, ps))
  {
    var all := [[name]] + Under(name, ps);
    forall a, b | 0 <= a < b < |all| ensures Before(all[a], all[b]) {
      assert all[b] == [name] + ps[b - 1] && all[b][1..] == ps[b - 1];
      if a == 0 {
        assert ps[b - 1] in ps;
      } else {
        assert all[a] == [name] + ps[a - 1] && all[a][1..] == ps[a - 1];
      }
    }
  }

  lemma ConcatInOrder(xs: seq<Path>, ys: seq<Path>)
    requires InOrder(xs) && InOrder(ys) && forall x, y :: x in xs && y in ys ==> Before(x, y)
    ensures InOrder(xs + ys)
  {
    var all := xs + ys;
    forall a, b | 0 <= a < b < |all| ensures Before(all[a], all[b]) {
      if a < |xs| <= b {
        assert xs[a] in xs && ys[b - |xs|] in ys;
      }
    }
  }

  lemma {:induction false} ReachedInOrder(n: Node, i: nat)
    requires n.Dir? && i <= |Items(n.children)|
    ensures InOrder(Reached(n, i))
    decreases n, |Items(n.children)| - i
  {
    if i < |Items(n.children)| {
      var item := ItemAt(n, i);
      ReachedUnfold(n, i);
      ReachedInOrder(n, i + 1);
      if PrintsAsDir(item.1) {
        ReachedInOrder(item.1, 0);
      }
      forall p | p in ReachedBelow(item.1) ensures p != [] {
        BelowMeans(item.1, p);
      }
      UnderInOrder(item.0, ReachedBelow(item.1));
      var here := [[item.0]] + Under(item.0, ReachedBelow(item.1));
      forall x, y | x in here && y in Reached(n, i + 1) ensures Before(x, y) {
        UnderMeans(item.0, ReachedBelow(item.1), x);
        LaterNames(n, i, y);
      }
      ConcatInOrder(here, Reached(n, i + 1));
    }
  }

  lemma LaterNames(n: Node, i: nat, y: Path)
    requires n.Dir? && i < |Items(n.children)| && y in Reached(n, i + 1)
    ensures y != [] && ItemAt(n, i).0 != y[0] && StrLe(ItemAt(n, i).0, y[0])
  {
    ReachedMeans(n, i + 1, y);
    var j :| i + 1 <= j < |Items(n.children)| && Items(n.children)[j].0 == y[0];
    ItemsSorted(n.children, i, j);
  }

  // ---------------------------------------------------------- their lines

  lemma LastItemIs(n: Node, i: nat)
    requires n.Dir? && i < |Items(n.children)|
    ensures IsLastName(n.children, ItemAt(n, i).0) <==> i == |Items(n.children)| - 1
  {
    var items := Items(n.children);
    if i == |items| - 1 {
      forall k | k in n.children ensures StrLe(k, items[i].0) {
        assert (k, n.children[k]) in items;
        var j :| 0 <= j < |items| && items[j] == (k, n.children[k]);
        StrLeRefl(k);
        if j < i {
          ItemsSorted(n.children, j, i);
        }
      }
    } else {
      assert items[i + 1] in items;
      ItemsSorted(n.children, i, i + 1);
      if IsLastName(n.children, items[i].0) {
        StrLeAntisymmetric(items[i].0, items[i + 1].0);
      }
    }
  }

  /** Line `k` is that of path `k`. */
  ghost predicate Draws(t: map<string, Node>, prefix: string, lines: seq<string>, ps: seq<Path>) {
    |lines| == |ps| && forall k :: 0 <= k < |ps| ==> Holds(t, ps[k]) && lines[k] == LineOf(t, prefix, ps[k])
  }

  lemma DrawsConcat(t: map<string, Node>, prefix: string, xs: seq<string>, ps: seq<Path>, ys: seq<string>, qs: seq<Path>)
    requires Draws(t, prefix, xs, ps) && Draws(t, prefix, ys, qs)
    ensures Draws(t, prefix, xs + ys, ps + qs)
  {}

  ghost predicate BelowDraws(sub: Node, prefix: string) {
    PrintsAsDir(sub) ==> Draws(sub.children, prefix, Lines(sub, prefix, 0), Reached(sub, 0))
  }

  function Deeper(prefix: string, last: bool): string {
    prefix + if last then BELOW_LAST else BELOW_ITEM
  }

  lemma {:induction false} LinesAreDrawn(n: Node, prefix: string, i: nat)
    requires n.Dir? && i <= |Items(n.children)|
    ensures Draws(n.children, prefix, Lines(n, prefix, i), Reached(n, i))
    decreases n, |Items(n.children)| - i
  {
    if i == |Items(n.children)| {
      NothingIsDrawn(n, prefix);
    } else {
      var sub, deeper := ItemAt(n, i).1, Deeper(prefix, i == |Items(n.children)| - 1);
      LinesAreDrawn(n, prefix, i + 1);
      if PrintsAsDir(sub) {
        LinesAreDrawn(sub, deeper, 0);
      }
      assert BelowDraws(sub, deeper);
      BelowIsDrawn(n, prefix, i);
      OneItemMore(n, prefix, i);
    }
  }

  lemma NothingIsDrawn(n: Node, prefix: string)
    requires n.Dir?
    ensures var end := |Items(n.children)|; Draws(n.children, prefix, Lines(n, prefix, end), Reached(n, end))
  {}

  lemma OneItemMore(n: Node, prefix: string, i: nat)
    requires n.Dir? && i < |Items(n.children)|
    requires Draws(n.children, prefix, Lines(n, prefix, i + 1), Reached(n, i + 1))
    requires var item, last := ItemAt(n, i), i == |Items(n.children)| - 1;
             && Draws(n.children, prefix, [ItemText(n, prefix, i)], [[item.0]])
             && Draws(n.children, prefix, Below(item.1, prefix, last), Under(item.0, ReachedBelow(item.1)))
    ensures Draws(n.children, prefix, Lines(n, prefix, i), Reached(n, i))
  {
    var item, last := ItemAt(n, i), i == |Items(n.children)| - 1;
    var here, below := [[item.0]], Under(item.0, ReachedBelow(item.1));
    LinesUnfold(n, prefix, i);
    ReachedUnfold(n, i);
    DrawsConcat(n.children, prefix, [ItemText(n, prefix, i)], here, Below(item.1, prefix, last), below);
    DrawsConcat(n.children, prefix, [ItemText(n, prefix, i)] + Below(item.1, prefix, last), here + below,
                Lines(n, prefix, i + 1), Reached(n, i + 1));
  }

  lemma BelowIsDrawn(n: Node, prefix: string, i: nat)
    requires n.Dir? && i < |Items(n.children)|
    requires BelowDraws(ItemAt(n, i).1, Deeper(prefix, i == |Items(n.children)| - 1))
    ensures var item, last := ItemAt(n, i), i == |Items(n.children)| - 1;
            && Draws(n.children, prefix, [ItemText(n, prefix, i)], [[item.0]])
            && Draws(n.children, prefix, Below(item.1, prefix, last), Under(item.0, ReachedBelow(item.1)))
  {
    var item, last := ItemAt(n, i), i == |Items(n.children)| - 1;
    assert item in Items(n.children);
    LastItemIs(n, i);
    var ps, lines := ReachedBelow(item.1), Below(item.1, prefix, last);
    forall k | 0 <= k < |ps|
      ensures Holds(n.children, [item.0] + ps[k]) && lines[k] == LineOf(n.children, prefix, [item.0] + ps[k])
    {
      var p := [item.0] + ps[k];
      assert p[0] == item.0 && p[1..] == ps[k] && ps[k] != [];
    }
  }

  // ------------------------------------------ in terms of the shown paths

  /** A shown path leads here or further. */
  ghost predicate IsEntry(paths: seq<Path>, depth: nat, p: Path) {
    p != [] && exists q :: Shown(paths, depth, q) && p <= q
  }

  /** A shown path leads further. */
  ghost predicate IsDirectory(paths: seq<Path>, depth: nat, p: Path) {
    exists q :: Shown(paths, depth, q) && p <= q && p != q
  }

  /** No entry of the same directory has a later name. */
  ghost predicate IsLastEntry(paths: seq<Path>, depth: nat, p: Path)
    requires p != []
  {
    forall name :: IsEntry(paths, depth, p[..|p| - 1] + [name]) ==> StrLe(name, p[|p| - 1])
  }

  /** A bar for each of the first `k` directories on the way that is not the last of its own, a gap for each that is. */
  ghost function Bars(paths: seq<Path>, depth: nat, p: Path, k: nat): string
    requires k <= |p|
  {
    if k == 0 then ""
    else Bars(paths, depth, p, k - 1) + if IsLastEntry(paths, depth, p[..k]) then "    " else "│   "
  }

  ghost function Drawn(paths: seq<Path>, depth: nat, p: Path): string
    requires p != []
  {
    Bars(paths, depth, p, |p| - 1)
    + (if IsLastEntry(paths, depth, p) then "└── " else "├── ")
    + p[|p| - 1]
    + (if IsDirectory(paths, depth, p) then "/" else "")
  }

  /** The dictionary reached along `above` holds the files of the shown paths that lead there. */
  ghost predicate IsAt(t: map<string, Node>, paths: seq<Path>, depth: nat, above: Path) {
    NoEmptyDir(Dir(t)) && forall q :: HasFile(t, q) <==> q != [] && Shown(paths, depth, above + q)
  }

  lemma NameIsEntry(t: map<string, Node>, paths: seq<Path>, depth: nat, above: Path, name: string)
    requires IsAt(t, paths, depth, above)
    ensures name in t <==> IsEntry(paths, depth, above + [name])
    ensures name in t ==> (PrintsAsDir(t[name]) <==> IsDirectory(paths, depth, above + [name]))
  {
    if name in t {
      FileThrough(t, paths, depth, above, name);
    }
    if q :| Shown(paths, depth, q) && above + [name] <= q {
      ShownThrough(t, paths, depth, above, name, q);
    }
    if q :| Shown(paths, depth, q) && above + [name] <= q && above + [name] != q {
      ShownThrough(t, paths, depth, above, name, q);
    }
  }

  lemma ShownThrough(t: map<string, Node>, paths: seq<Path>, depth: nat, above: Path, name: string, q: Path)
    requires IsAt(t, paths, depth, above) && Shown(paths, depth, q) && above + [name] <= q
    ensures name in t && (above + [name] != q ==> PrintsAsDir(t[name]))
  {
    var rest := q[|above|..];
    assert above + rest == q && rest[0] == name;
    assert HasFile(t, rest);
  }

  /** Below each name there is a shown path, and it leads further exactly from a directory. */
  lemma FileThrough(t: map<string, Node>, paths: seq<Path>, depth: nat, above: Path, name: string)
    requires IsAt(t, paths, depth, above) && name in t
    ensures IsEntry(paths, depth, above + [name])
    ensures PrintsAsDir(t[name]) ==> IsDirectory(paths, depth, above + [name])
  {
    if t[name].File? {
      assert HasFile(t, [name]);
      assert Shown(paths, depth, above + [name]);
    } else {
      var p := SomeFile(t[name]);
      assert ([name] + p)[1..] == p;
      assert HasFile(t, [name] + p);
      assert above + ([name] + p) == (above + [name]) + p;
      assert Shown(paths, depth, (above + [name]) + p);
    }
  }

  lemma LastNameIsLastEntry(t: map<string, Node>, paths: seq<Path>, depth: nat, above: Path, name: string)
    requires IsAt(t, paths, depth, above)
    ensures IsLastName(t, name) <==> IsLastEntry(paths, depth, above + [name])
  {
    var p := above + [name];
    assert p[..|p| - 1] == above;
    forall k ensures k in t <==> IsEntry(paths, depth, above + [k]) {
      NameIsEntry(t, paths, depth, above, k);
    }
  }

  lemma OneDown(t: map<string, Node>, paths: seq<Path>, depth: nat, above: Path, name: string)
    requires IsAt(t, paths, depth, above) && name in t && t[name].Dir?
    ensures IsAt(t[name].children, paths, depth, above + [name])
  {
    forall q ensures HasFile(t[name].children, q) <==> q != [] && Shown(paths, depth, above + [name] + q) {
      assert ([name] + q)[1..] == q;
      assert above + ([name] + q) == above + [name] + q;
      assert HasFile(t, [name] + q) <==> Shown(paths, depth, above + ([name] + q));
    }
  }

  /** Reading the trie downwards draws the line that the shown paths ask for. */
  lemma {:induction false} LineIsDrawn(t: map<string, Node>, paths: seq<Path>, depth: nat, above: Path, p: Path, whole: Path)
    requires IsAt(t, paths, depth, above) && Holds(t, p) && whole == above + p
    ensures LineOf(t, Bars(paths, depth, whole, |above|), p) == Drawn(paths, depth, whole)
    decreases |p|
  {
    var name := p[0];
    if |p| == 1 {
      assert p == [name];
      LastLineIsDrawn(t, paths, depth, above, name);
    } else {
      OneDown(t, paths, depth, above, name);
      LineIsDrawn(t[name].children, paths, depth, above + [name], p[1..], whole);
      LastNameIsLastEntry(t, paths, depth, above, name);
      LineOneUp(t, paths, depth, above, p, whole);
    }
  }

  lemma LineOneUp(t: map<string, Node>, paths: seq<Path>, depth: nat, above: Path, p: Path, whole: Path)
    requires Holds(t, p) && |p| > 1 && whole == above + p
    requires IsLastName(t, p[0]) <==> IsLastEntry(paths, depth, above + [p[0]])
    requires LineOf(t[p[0]].children, Bars(paths, depth, whole, |above + [p[0]]|), p[1..]) == Drawn(paths, depth, whole)
    ensures LineOf(t, Bars(paths, depth, whole, |above|), p) == Drawn(paths, depth, whole)
  {
    OneBarMore(paths, depth, above, p[0], p[1..]);
    assert above + [p[0]] + p[1..] == whole;
    LineUnfold(t, Bars(paths, depth, whole, |above|), p);
  }

  lemma LineUnfold(t: map<string, Node>, prefix: string, p: Path)
    requires Holds(t, p) && |p| > 1
    ensures LineOf(t, prefix, p) ==
            LineOf(t[p[0]].children, prefix + if IsLastName(t, p[0]) then BELOW_LAST else BELOW_ITEM, p[1..])
  {}

  lemma LastLineIsDrawn(t: map<string, Node>, paths: seq<Path>, depth: nat, above: Path, name: string)
    requires IsAt(t, paths, depth, above) && name in t
    ensures LineOf(t, Bars(paths, depth, above + [name], |above|), [name]) == Drawn(paths, depth, above + [name])
  {
    LastNameIsLastEntry(t, paths, depth, above, name);
    NameIsEntry(t, paths, depth, above, name);
  }

  lemma OneBarMore(paths: seq<Path>, depth: nat, above: Path, name: string, rest: Path)
    ensures Bars(paths, depth, above + [name] + rest, |above + [name]|) ==
            Bars(paths, depth, above + [name] + rest, |above|)
            + if IsLastEntry(paths, depth, above + [name]) then BELOW_LAST else BELOW_ITEM
  {
    assert (above + [name] + rest)[..|above + [name]|] == above + [name];
  }

  lemma {:induction false} EntryIsHeld(t: map<string, Node>, paths: seq<Path>, depth: nat, above: Path, p: Path)
    requires IsAt(t, paths, depth, above)
    ensures Holds(t, p) <==> p != [] && IsEntry(paths, depth, above + p)
    decreases |p|
  {
    if p != [] {
      var here := above + [p[0]];
      NameIsEntry(t, paths, depth, above, p[0]);
      if |p| == 1 {
        assert p == [p[0]];
      } else {
        assert here + p[1..] == above + p;
        if q :| Shown(paths, depth, q) && above + p <= q {
          assert here <= q && here != q;
        }
        if p[0] in t && t[p[0]].Dir? {
          OneDown(t, paths, depth, above, p[0]);
          EntryIsHeld(t[p[0]].children, paths, depth, here, p[1..]);
        }
      }
    }
  }

  /**
   * The lines of the printed tree: one for each shown path and each directory on the way to one, every
   * directory directly before what it holds and names in ascending order, each drawn as its path asks for.
   */
  lemma PrintedLines(paths: seq<Path>, depth: nat) returns (ps: seq<Path>)
    requires forall p :: p in paths ==> WellFormed(p)
    ensures |ps| == |PrintedTree(paths, depth)|
    ensures forall p :: p in ps <==> IsEntry(paths, depth, p)
    ensures InOrder(ps)
    ensures forall k :: 0 <= k < |ps| ==> ps[k] != [] && PrintedTree(paths, depth)[k] == Drawn(paths, depth, ps[k])
  {
    var t := Build(paths, depth);
    BuildShows(paths, depth);
    assert IsAt(t, paths, depth, []) by {
      forall q: Path ensures [] + q == q {}
    }
    ps := Reached(Dir(t), 0);
    ReachedInOrder(Dir(t), 0);
    LinesAreDrawn(Dir(t), "", 0);
    forall p ensures p in ps <==> IsEntry(paths, depth, p) {
      RootEntry(t, paths, depth, p);
    }
    forall k | 0 <= k < |ps| ensures ps[k] != [] && PrintedTree(paths, depth)[k] == Drawn(paths, depth, ps[k]) {
      LineIsDrawn(t, paths, depth, [], ps[k], ps[k]);
    }
  }

  lemma RootEntry(t: map<string, Node>, paths: seq<Path>, depth: nat, p: Path)
    requires IsAt(t, paths, depth, [])
    ensures p in Reached(Dir(t), 0) <==> IsEntry(paths, depth, p)
  {
    ReachedMeans(Dir(t), 0, p);
    EntryIsHeld(t, paths, depth, [], p);
    assert [] + p == p;
    if Holds(t, p) {
      assert (p[0], t[p[0]]) in Items(t);
    }
  }
}
