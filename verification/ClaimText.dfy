/** The string operations by which a verifier reads the subject of a claim. */
module ClaimText {
  import opened Basics

  const QUOTE := '\''

  lemma {:induction false} SplitHead(name: string, c: char, t: string)
    ensures Split(name + [c] + t, c)[0] == Split(name, c)[0]
  {
    var s := name + [c] + t;
    if name == "" {
      assert s[0] == c;
    } else {
      assert s[0] == name[0] && s[1..] == name[1..] + [c] + t;
      SplitHead(name[1..], c, t);
    }
  }

  /** What is left of a name between the quotes: everything before a quote of its own. */
  function BeforeQuote(name: string): string {
    Split(name, QUOTE)[0]
  }

  lemma {:induction false} BeforeQuoteMeaning(name: string)
    ensures QUOTE !in BeforeQuote(name)
    ensures QUOTE !in name ==> BeforeQuote(name) == name
    ensures QUOTE in name ==> BeforeQuote(name) + [QUOTE] <= name
  {
    if name != "" {
      BeforeQuoteMeaning(name[1..]);
      if name[0] != QUOTE {
        assert name == [name[0]] + name[1..];
        assert BeforeQuote(name) == [name[0]] + BeforeQuote(name[1..]);
      }
    }
  }

  /** s.split(): the maximal runs without white space */
  function Words(s: string): seq<string>
    decreases |s|
  {
    if s == "" then []
    else if IsSpace(s[0]) then Words(s[1..])
    else
      var n := WordLength(s);
      [s[..n]] + Words(s[n..])
  }

  function WordLength(s: string): (n: nat)
    ensures n <= |s| && (s != "" && !IsSpace(s[0]) ==> n > 0)
  {
    if s == "" || IsSpace(s[0]) then 0 else 1 + WordLength(s[1..])
  }

  lemma {:induction false} WordLengthOf(word: string, t: string)
    requires forall c :: c in word ==> !IsSpace(c)
    requires t == "" || IsSpace(t[0])
    ensures WordLength(word + t) == |word|
  {
    if word == "" {
      assert word + t == t;
    } else {
      assert word[0] in word && (word + t)[1..] == word[1..] + t;
      WordLengthOf(word[1..], t);
    }
  }

  lemma FirstWord(word: string, t: string)
    requires word != "" && forall c :: c in word ==> !IsSpace(c)
    requires t == "" || IsSpace(t[0])
    ensures Words(word + t) != [] && Words(word + t)[0] == word
  {
    WordLengthOf(word, t);
    assert word[0] in word && (word + t)[..|word|] == word;
  }

  lemma {:induction false} NoWords(s: string)
    ensures Words(s) == [] <==> forall c :: c in s ==> IsSpace(c)
    ensures forall word :: word in Words(s) ==> word != ""
    decreases |s|
  {
    if s != "" {
      assert s == [s[0]] + s[1..];
      if IsSpace(s[0]) {
        NoWords(s[1..]);
      } else {
        NoWords(s[WordLength(s)..]);
        assert s[0] in s;
      }
    }
  }

  // ---------------------------------------------------------- numbering

  /** The identifier f"SCOUT-HYP-{n:03d}". */
  function HypothesisId(n: nat): string {
    "SCOUT-HYP-" + ZeroPad(Digits(n), 3)
  }

  function ZeroPad(s: string, width: nat): string
    decreases width - |s|
  {
    if |s| < width then ZeroPad("0" + s, width) else s
  }

  /** int(s) for a string of digits */
  function Value(s: string): nat {
    if s == "" then 0 else 10 * Value(s[..|s| - 1]) + DigitValue(s[|s| - 1], 10)
  }

  function DigitValue(c: char, n: nat): nat
    requires n <= 10
  {
    if n == 0 then 0 else if DIGITS[n - 1] == c then n - 1 else DigitValue(c, n - 1)
  }

  lemma {:induction false} DigitRoundTrip(d: nat, n: nat)
    requires d < n <= 10
    ensures DigitValue(DIGITS[d], n) == d
  {
    if d < n - 1 {
      DigitRoundTrip(d, n - 1);
      assert DIGITS[n - 1] != DIGITS[d];
    }
  }

  lemma {:induction false} ValueOfDigits(n: nat)
    ensures Value(Digits(n)) == n
  {
    var s := Digits(n);
    DigitRoundTrip(n % 10, 10);
    if n < 10 {
      assert s[..|s| - 1] == "";
    } else {
      ValueOfDigits(n / 10);
      assert s[..|s| - 1] == Digits(n / 10);
    }
  }

  lemma {:induction false} LeadingZero(s: string)
    ensures Value("0" + s) == Value(s)
  {
    DigitRoundTrip(0, 10);
    if s == "" {
      assert ("0" + s)[..|"0" + s| - 1] == "";
    } else {
      LeadingZero(s[..|s| - 1]);
      assert ("0" + s)[..|"0" + s| - 1] == "0" + s[..|s| - 1];
    }
  }

  lemma {:induction false} ValueOfPadded(s: string, width: nat)
    ensures Value(ZeroPad(s, width)) == Value(s)
    decreases width - |s|
  {
    if |s| < width {
      LeadingZero(s);
      ValueOfPadded("0" + s, width);
    }
  }

  /** Two hypotheses of one scout never share an identifier. */
  lemma HypothesisIdsDiffer(m: nat, n: nat)
    requires HypothesisId(m) == HypothesisId(n)
    ensures m == n
  {
    var p := "SCOUT-HYP-";
    assert HypothesisId(m)[|p|..] == ZeroPad(Digits(m), 3);
    assert HypothesisId(n)[|p|..] == ZeroPad(Digits(n), 3);
    ValueOfPadded(Digits(m), 3);
    ValueOfPadded(Digits(n), 3);
    ValueOfDigits(m);
    ValueOfDigits(n);
  }

  /** An identifier is the number in decimal after the prefix, filled up with zeros to three digits. */
  lemma HypothesisIdMeans(n: nat)
    ensures var id := HypothesisId(n);
            && |id| >= 13 && id[..10] == "SCOUT-HYP-" && Value(id[10..]) == n
            && (|id| > 13 ==> id[10] != '0')
  {
    var d := ZeroPad(Digits(n), 3);
    assert HypothesisId(n)[10..] == d;
    ValueOfPadded(Digits(n), 3);
    ValueOfDigits(n);
    PaddedLength(Digits(n), 3);
    if |d| > 3 {
      NoLeadingZero(n);
    }
  }

  lemma {:induction false} PaddedLength(s: string, width: nat)
    ensures |ZeroPad(s, width)| == if |s| < width then width else |s|
    ensures |s| >= width ==> ZeroPad(s, width) == s
    decreases width - |s|
  {
    if |s| < width {
      PaddedLength("0" + s, width);
    }
  }

  lemma {:induction false} NoLeadingZero(n: nat)
    ensures n > 0 ==> Digits(n)[0] != '0'
    ensures n < 10 ==> |Digits(n)| == 1
  {
    if n >= 10 {
      NoLeadingZero(n / 10);
    } else if n > 0 {
      assert Digits(n) == [DIGITS[n]];
    }
  }

  lemma {:induction false} AllSpace(gap: string, t: string)
    requires forall c :: c in gap ==> IsSpace(c)
    ensures Words(gap + t) == Words(t)
  {
    if gap == "" {
      assert gap + t == t;
    } else {
      assert (gap + t)[1..] == gap[1..] + t && gap[0] in gap;
      AllSpace(gap[1..], t);
    }
  }

  /** s.split(), word by word: white space is skipped, and a word goes on to the next white space or the end. */
  lemma WordsMean(gap: string, word: string, t: string)
    requires (forall c :: c in gap ==> IsSpace(c)) && (forall c :: c in word ==> !IsSpace(c))
    requires t == "" || IsSpace(t[0])
    ensures word != "" ==> Words(gap + (word + t)) == [word] + Words(t)
    ensures Words(gap) == []
  {
    AllSpace(gap, word + t);
    AllSpace(gap, "");
    assert gap + "" == gap;
    if word != "" {
      WordLengthOf(word, t);
      assert word[0] in word && (word + t)[..|word|] == word && (word + t)[|word|..] == t;
    }
  }
}
