/** Small vocabulary shared by the other modules. */
module Basics {

  datatype Option<+T> = None | Some(value: T)

  datatype Result<+T, +E> = Ok(value: T) | Err(error: E)

  predicate IsSpace(c: char) {
    c in {' ', '\t', '\n', '\r'}
  }

  const DIGITS := "0123456789"

  /** `str(n)`: decimal, without leading zeros. */
  function Digits(n: nat): (s: string)
    ensures s != ""
  {
    (if n < 10 then "" else Digits(n / 10)) + [DIGITS[n % 10]]
  }

  /** `str <= str` of Python: lexicographic order on code points. */
  predicate StrLe(a: string, b: string) {
    a == "" || (b != "" && (a[0] < b[0] || (a[0] == b[0] && StrLe(a[1..], b[1..]))))
  }

  lemma StrLeRefl(a: string)
    ensures StrLe(a, a)
  {
    if a != "" {
      StrLeRefl(a[1..]);
    }
  }

  lemma {:induction false} StrLeTotal(a: string, b: string)
    ensures StrLe(a, b) || StrLe(b, a)
  {
    if a != "" && b != "" && a[0] == b[0] {
      StrLeTotal(a[1..], b[1..]);
    }
  }

  lemma {:induction false} StrLeAntisymmetric(a: string, b: string)
    requires StrLe(a, b) && StrLe(b, a)
    ensures a == b
  {
    if a != "" {
      StrLeAntisymmetric(a[1..], b[1..]);
      assert a == [a[0]] + a[1..] && b == [b[0]] + b[1..];
    }
  }

  lemma {:induction false} StrLeTransitive(a: string, b: string, c: string)
    requires StrLe(a, b) && StrLe(b, c)
    ensures StrLe(a, c)
  {
    if a != "" && a[0] == b[0] && b[0] == c[0] {
      StrLeTransitive(a[1..], b[1..], c[1..]);
    }
  }

  // ---------------------------------------------------------- sequences

  predicate NoRepeats<T(==)>(s: seq<T>) {
    forall i, j :: 0 <= i < j < |s| ==> s[i] != s[j]
  }

  lemma NoRepeatsConcat<T>(a: seq<T>, b: seq<T>)
    requires NoRepeats(a) && NoRepeats(b) && forall x :: x in a ==> x !in b
    ensures NoRepeats(a + b)
  {
    forall i, j | 0 <= i < j < |a + b| ensures (a + b)[i] != (a + b)[j] {
      if i < |a| <= j {
        assert a[i] in a && b[j - |a|] in b;
      }
    }
  }

  function Members<T(==,!new)>(s: seq<T>): (r: set<T>)
    ensures forall x :: x in r <==> x in s
  {
    set x | x in s
  }

  function Count<T(==)>(s: seq<T>, x: T): nat {
    if s == [] then 0 else Count(s[..|s| - 1], x) + (if s[|s| - 1] == x then 1 else 0)
  }

  lemma CountAppend<T>(s: seq<T>, y: T, x: T)
    ensures Count(s + [y], x) == Count(s, x) + (if y == x then 1 else 0)
  {
    assert (s + [y])[..|s|] == s;
  }

  lemma {:induction false} CountConcat<T>(a: seq<T>, b: seq<T>, x: T)
    ensures Count(a + b, x) == Count(a, x) + Count(b, x)
  {
    if b == [] {
      assert a + b == a;
    } else {
      var init, last := b[..|b| - 1], b[|b| - 1];
      CountConcat(a, init, x);
      assert a + b == (a + init) + [last];
      CountAppend(a + init, last, x);
    }
  }

  lemma {:induction false} CountIn<T>(s: seq<T>, x: T)
    ensures x in s <==> Count(s, x) > 0
  {
    if s != [] {
      CountIn(s[..|s| - 1], x);
      assert s == s[..|s| - 1] + [s[|s| - 1]];
    }
  }

  // ------------------------------------------------------------ strings

  /** s.startswith(prefix) */
  predicate StartsWith(s: string, prefix: string) {
    prefix <= s
  }

  /** s.split(c) */
  function Split(s: string, c: char): (parts: seq<string>)
    ensures |parts| >= 1
  {
    if s == "" then [""]
    else
      var rest := Split(s[1..], c);
      if s[0] == c then [""] + rest else [[s[0]] + rest[0]] + rest[1..]
  }

  /** separator.join(parts) */
  function Join(parts: seq<string>, separator: string): string {
    if parts == [] then ""
    else if |parts| == 1 then parts[0]
    else parts[0] + separator + Join(parts[1..], separator)
  }

  lemma JoinCons(part: string, rest: seq<string>, separator: string)
    requires rest != []
    ensures Join([part] + rest, separator) == part + separator + Join(rest, separator)
  {
    assert ([part] + rest)[1..] == rest;
  }

  lemma JoinLonger(w: string, rest: seq<string>, separator: string)
    requires rest != []
    ensures Join([w + rest[0]] + rest[1..], separator) == w + Join(rest, separator)
  {
    if |rest| == 1 {
      assert [w + rest[0]] + rest[1..] == [w + rest[0]];
    } else {
      JoinCons(w + rest[0], rest[1..], separator);
      Reassociate(w, rest[0], separator);
      Reassociate(w, rest[0] + separator, Join(rest[1..], separator));
    }
  }

  lemma {:induction false} SplitParts(s: string, c: char)
    ensures forall part :: part in Split(s, c) ==> c !in part
    ensures |Split(s, c)| == 1 <==> c !in s
    ensures c !in s ==> Split(s, c) == [s]
  {
    if s != "" {
      SplitParts(s[1..], c);
      assert s == [s[0]] + s[1..];
    }
  }

  lemma {:induction false} JoinSplit(s: string, c: char)
    ensures Join(Split(s, c), [c]) == s
    ensures forall part :: part in Split(s, c) ==> c !in part
    ensures |Split(s, c)| == 1 <==> c !in s
  {
    SplitParts(s, c);
    if s != "" {
      JoinSplit(s[1..], c);
      var rest := Split(s[1..], c);
      assert s == [s[0]] + s[1..];
      if s[0] == c {
        JoinCons("", rest, [c]);
        assert "" + [c] == [s[0]];
      } else {
        JoinLonger([s[0]], rest, [c]);
      }
    }
  }

  lemma {:induction false} SplitAfter(a: string, c: char, t: string)
    requires c !in a
    ensures Split(a + [c] + t, c) == [a] + Split(t, c)
  {
    var s := a + [c] + t;
    if a == "" {
      assert s[1..] == t;
    } else {
      assert s[0] == a[0] && s[1..] == a[1..] + [c] + t;
      SplitAfter(a[1..], c, t);
      assert a == [a[0]] + a[1..];
    }
  }

  /** "".join of two lists */
  lemma {:induction false} JoinConcat(a: seq<string>, b: seq<string>)
    ensures Join(a + b, "") == Join(a, "") + Join(b, "")
  {
    if a == [] {
      assert a + b == b;
    } else {
      JoinConcat(a[1..], b);
      JoinFirst(a);
      JoinFirst(a + b);
      assert (a + b)[1..] == a[1..] + b;
      Reassociate(a[0], Join(a[1..], ""), Join(b, ""));
    }
  }

  lemma JoinFirst(a: seq<string>)
    requires a != []
    ensures Join(a, "") == a[0] + Join(a[1..], "")
  {
    assert |a| > 1 ==> a[0] + "" == a[0];
  }

  lemma Reassociate<T>(a: seq<T>, b: seq<T>, c: seq<T>)
    ensures a + (b + c) == (a + b) + c
  {}

  /** What each step keeps from then on holds for ever. */
  lemma {:induction false} Stays(holds: nat -> bool, m: nat, n: nat)
    requires m <= n && holds(m) && forall i: nat :: m <= i < n && holds(i) ==> holds(i + 1)
    ensures holds(n)
    decreases n - m
  {
    if m < n {
      assert holds(m + 1);
      Stays(holds, m + 1, n);
    }
  }

  /** What does not hold at first and does in the end begins to hold at some step. */
  lemma WhenFirst(now: nat -> bool, n: nat) returns (i: nat)
    requires !now(0) && now(n)
    ensures i < n && !now(i) && now(i + 1)
  {
    i := n - 1;
    while now(i)
      invariant i < n && now(i + 1)
      decreases i
    {
      i := i - 1;
    }
  }

  /** `a` and `b` agree before `k` and differ there, with `a` below. */
  predicate DiffersAt(a: string, b: string, k: nat) {
    k < |a| && k < |b| && a[..k] == b[..k] && a[k] < b[k]
  }

  lemma DiffersLater(a: string, b: string, k: nat)
    requires a != [] && b != [] && a[0] == b[0]
    ensures DiffersAt(a, b, k + 1) <==> DiffersAt(a[1..], b[1..], k)
    ensures !DiffersAt(a, b, 0)
    ensures a <= b <==> a[1..] <= b[1..]
  {
    assert a == [a[0]] + a[1..] && b == [b[0]] + b[1..];
    if k < |a| - 1 && k < |b| - 1 {
      assert a[..k + 1] == [a[0]] + a[1..][..k] && b[..k + 1] == [b[0]] + b[1..][..k];
    }
  }

  /** The order of strings: a prefix comes first, else the first difference decides. */
  lemma {:induction false} StrLeMeans(a: string, b: string)
    ensures StrLe(a, b) <==> a <= b || exists k: nat :: DiffersAt(a, b, k)
  {
    if a == [] || b == [] {
      assert forall k: nat :: !DiffersAt(a, b, k);
    } else if a[0] == b[0] {
      StrLeMeans(a[1..], b[1..]);
      forall k: nat ensures DiffersAt(a, b, k + 1) <==> DiffersAt(a[1..], b[1..], k) {
        DiffersLater(a, b, k);
      }
      DiffersLater(a, b, 0);
      if k: nat :| DiffersAt(a, b, k) {
        assert DiffersAt(a[1..], b[1..], k - 1);
      }
    } else {
      FirstDiffers(a, b);
      assert DiffersAt(a, b, 0) <==> a[0] < b[0];
    }
  }

  lemma FirstDiffers(a: string, b: string)
    requires a != [] && b != [] && a[0] != b[0]
    ensures !(a <= b) && forall k: nat :: DiffersAt(a, b, k) <==> k == 0 && a[0] < b[0]
  {
    forall k: nat ensures DiffersAt(a, b, k) ==> k == 0 {
      if 0 < k < |a| && k < |b| {
        assert a[..k][0] == a[0] && b[..k][0] == b[0];
      }
    }
    assert a[..0] == b[..0];
  }

  /** A counter that goes up exactly where `p` holds counts where `p` holds. */
  lemma {:induction false} CounterCounts(p: nat -> bool, c: nat -> nat, n: nat)
    requires c(0) == 0 && forall i: nat :: i < n ==> c(i + 1) == c(i) + if p(i) then 1 else 0
    ensures c(n) == |set i: nat | i < n && p(i)|
  {
    var now := set i: nat | i < n && p(i);
    if n == 0 {
      assert now == {};
    } else {
      var m: nat := n - 1;
      CounterCounts(p, c, m);
      assert c(m + 1) == c(m) + if p(m) then 1 else 0;
      OneMoreCounted(p, m);
    }
  }

  lemma OneMoreCounted(p: nat -> bool, n: nat)
    ensures |set i: nat | i < n + 1 && p(i)| == |set i: nat | i < n && p(i)| + if p(n) then 1 else 0
  {
    var before := set i: nat | i < n && p(i);
    assert (set i: nat | i < n + 1 && p(i)) == before + if p(n) then {n} else {};
  }

  // --------------------------------------------- counting and picking out

  lemma {:induction false} CountIsMultiset<T>(s: seq<T>, x: T)
    ensures Count(s, x) == multiset(s)[x]
  {
    if s != [] {
      var init, last := s[..|s| - 1], s[|s| - 1];
      CountIsMultiset(init, x);
      assert s == init + [last];
    }
  }

  /** No repetitions means as many elements as places. */
  lemma {:induction false} NoRepeatsCounts<T>(s: seq<T>)
    ensures NoRepeats(s) <==> |set x | x in s| == |s|
    ensures |set x | x in s| <= |s|
  {
    var all := set x | x in s;
    if s == [] {
      assert all == {};
    } else {
      var init, last := s[..|s| - 1], s[|s| - 1];
      NoRepeatsCounts(init);
      assert s == init + [last];
      var before := set x | x in init;
      assert all == before + {last};
      if last in init {
        assert all == before;
        var i :| 0 <= i < |init| && init[i] == last;
        assert s[i] == s[|s| - 1];
      } else if NoRepeats(init) {
        NoRepeatsConcat(init, [last]);
      } else {
        var i, j :| 0 <= i < j < |init| && init[i] == init[j];
        assert s[i] == s[j];
      }
    }
  }

  /** `r` lists, in order, the members of `all` at exactly the places below `n` with `p`; `at` says which they are. */
  ghost predicate Picks<U(!new)>(r: seq<U>, all: seq<U>, n: nat, p: nat -> bool, at: seq<nat>) {
    && n <= |all| && |at| == |r|
    && (forall i, j :: 0 <= i < j < |at| ==> at[i] < at[j])
    && (forall i :: 0 <= i < |at| ==> at[i] < n && p(at[i]) && r[i] == all[at[i]])
    && forall k: nat :: k < n && p(k) ==> k in at
  }

  /** What a loop collects that goes over the first `n` members. */
  lemma {:induction false} Collected<U(!new)>(r: nat -> seq<U>, all: seq<U>, n: nat, p: nat -> bool) returns (at: seq<nat>)
    requires n <= |all| && r(0) == []
    requires forall k: nat :: k < n ==> r(k + 1) == r(k) + if p(k) then [all[k]] else []
    ensures Picks(r(n), all, n, p, at)
  {
    if n == 0 {
      at := [];
    } else {
      var m: nat := n - 1;
      var before := Collected(r, all, m, p);
      assert r(m + 1) == r(m) + if p(m) then [all[m]] else [];
      at := if p(m) then before + [m] else before;
      PicksOneMore(r(m), all, m, p, before);
    }
  }

  lemma PicksOneMore<U(!new)>(r: seq<U>, all: seq<U>, n: nat, p: nat -> bool, at: seq<nat>)
    requires Picks(r, all, n, p, at) && n < |all|
    ensures p(n) ==> Picks(r + [all[n]], all, n + 1, p, at + [n])
    ensures !p(n) ==> Picks(r, all, n + 1, p, at)
  {
    forall k: nat | k < n + 1 && p(k) ensures k in at + [n] {
      if k < n {
        assert k in at;
      }
    }
  }
}
