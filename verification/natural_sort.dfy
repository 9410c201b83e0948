/** Natural-sort keys for clip file names: a name is split into alternating
    text runs and digit runs; digit runs compare as integers and text runs
    compare lower-cased, so "clip2" sorts before "clip10". */
module NaturalSort {

  /** One element of a key: a lower-cased text run or the value of a digit run. */
  datatype Token = Text(s: string) | Num(n: nat)

  predicate IsDigit(c: char) { '0' <= c <= '9' }

  predicate AllDigits(s: string) { forall i :: 0 <= i < |s| ==> IsDigit(s[i]) }

  predicate NoDigits(s: string) { forall i :: 0 <= i < |s| ==> !IsDigit(s[i]) }

  /** ASCII lower-casing of one character. */
  function LowerChar(c: char): char {
    if 'A' <= c <= 'Z' then (c as int + 32) as char else c
  }

  function Lower(s: string): (r: string)
    ensures |r| == |s|
  {
    seq(|s|, i requires 0 <= i < |s| => LowerChar(s[i]))
  }

  function DigitValue(c: char): nat
    requires IsDigit(c)
  {
    c as int - '0' as int
  }

  /** The integer a run of decimal digits denotes (leading zeros allowed). */
  function DigitsValue(s: string): nat
    requires AllDigits(s)
    decreases |s|
  {
    if s == [] then 0 else DigitsValue(s[..|s| - 1]) * 10 + DigitValue(s[|s| - 1])
  }

  /** Length of the longest digit-free prefix of s. */
  function TextRunLength(s: string): (n: nat)
    ensures n <= |s| && NoDigits(s[..n])
    ensures n < |s| ==> IsDigit(s[n])
  {
    if s == [] || IsDigit(s[0]) then 0 else 1 + TextRunLength(s[1..])
  }

  /** Length of the longest all-digit prefix of s. */
  function DigitRunLength(s: string): (n: nat)
    ensures n <= |s| && AllDigits(s[..n])
    ensures n < |s| ==> !IsDigit(s[n])
  {
    if s == [] || !IsDigit(s[0]) then 0 else 1 + DigitRunLength(s[1..])
  }

  /** Splitting at digit runs while keeping them, as a regular-expression split
      on one captured group of one or more digits does:
      [text, digits, text, ..., digits, text]. */
  function SplitDigitRuns(s: string): (parts: seq<string>)
    decreases |s|
  {
    var t := TextRunLength(s);
    if t == |s| then [s]
    else
      var u := s[t..];
      var d := DigitRunLength(u);
      [s[..t], u[..d]] + SplitDigitRuns(u[d..])
  }

  function Concat(parts: seq<string>): string {
    if parts == [] then [] else parts[0] + Concat(parts[1..])
  }

  /** The reference meaning of a digit-run split: the parts glue back to s, text
      parts (even positions) hold no digit, digit parts (odd positions) are
      non-empty digit runs, and only the first and last text part may be empty,
      so every digit run is maximal. */
  ghost predicate IsDigitRunSplit(s: string, parts: seq<string>) {
    && |parts| % 2 == 1
    && Concat(parts) == s
    && TextParts(parts)
    && DigitParts(parts)
    && InnerTextNonEmpty(parts)
  }

  ghost predicate TextParts(parts: seq<string>) {
    forall i :: 0 <= i < |parts| && i % 2 == 0 ==> NoDigits(parts[i])
  }

  ghost predicate DigitParts(parts: seq<string>) {
    forall i :: 0 <= i < |parts| && i % 2 == 1 ==> parts[i] != [] && AllDigits(parts[i])
  }

  ghost predicate InnerTextNonEmpty(parts: seq<string>) {
    forall i :: 0 < i < |parts| - 1 && i % 2 == 0 ==> parts[i] != []
  }

  lemma {:induction false} TextRunLengthOf(a: string, b: string)
    requires NoDigits(a)
    requires b != [] ==> IsDigit(b[0])
    ensures TextRunLength(a + b) == |a|
    decreases |a|
  {
    if a != [] {
      assert (a + b)[1..] == a[1..] + b;
      TextRunLengthOf(a[1..], b);
    }
  }

  lemma {:induction false} DigitRunLengthOf(a: string, b: string)
    requires AllDigits(a)
    requires b != [] ==> !IsDigit(b[0])
    ensures DigitRunLength(a + b) == |a|
    decreases |a|
  {
    if a != [] {
      assert (a + b)[1..] == a[1..] + b;
      DigitRunLengthOf(a[1..], b);
    }
  }

  lemma ConcatCons(x: string, ps: seq<string>)
    ensures Concat([x] + ps) == x + Concat(ps)
  {
    assert ([x] + ps)[1..] == ps;
  }

  /** Prepending a text run and a digit run to a split of the rest gives a split
      of the whole, provided the rest's leading text run separates the two
      digit runs. */
  lemma ConsSplit(a: string, b: string, rest: string, tail: seq<string>)
    requires NoDigits(a) && b != [] && AllDigits(b)
    requires IsDigitRunSplit(rest, tail)
    requires |tail| > 1 ==> tail[0] != []
    ensures IsDigitRunSplit(a + (b + rest), [a, b] + tail)
  {
    var parts := [a, b] + tail;
    ConcatCons(b, tail);
    ConcatCons(a, [b] + tail);
    assert parts == [a] + ([b] + tail);
    forall i | 2 <= i < |parts|
      ensures parts[i] == tail[i - 2]
    {
    }
  }

  /** A string is its prefix up to t followed by the two pieces of its
      suffix from t. */
  lemma SliceJoin(s: string, t: nat, d: nat)
    requires t <= |s| && d <= |s| - t
    ensures s == s[..t] + (s[t..][..d] + s[t..][d..])
  {
    assert s[t..] == s[t..][..d] + s[t..][d..];
  }

  /** The split of a string that does not start with a digit starts with a
      non-empty text run whenever a digit run follows. */
  lemma SplitStartsWithText(rest: string)
    requires rest != [] ==> !IsDigit(rest[0])
    ensures |SplitDigitRuns(rest)| > 1 ==> SplitDigitRuns(rest)[0] != []
  {
    var t := TextRunLength(rest);
    if t != |rest| {
      assert rest != [];
      assert SplitDigitRuns(rest)[0] == rest[..t];
    }
  }

  /** The split computed by SplitDigitRuns has the reference meaning. */
  lemma {:induction false} SplitDigitRunsCorrect(s: string)
    ensures IsDigitRunSplit(s, SplitDigitRuns(s))
    decreases |s|
  {
    var t := TextRunLength(s);
    if t == |s| {
      assert s[..t] == s;
      ConcatCons(s, []);
    } else {
      var u := s[t..];
      var d := DigitRunLength(u);
      var rest := u[d..];
      SliceJoin(s, t, d);
      SplitDigitRunsCorrect(rest);
      SplitStartsWithText(rest);
      ConsSplit(s[..t], u[..d], rest, SplitDigitRuns(rest));
    }
  }

  /** The pieces of a split after its first text and digit run split the rest. */
  lemma SplitTailFacts(s: string, parts: seq<string>)
    requires IsDigitRunSplit(s, parts) && |parts| > 1
    ensures |parts| >= 3
    ensures s == parts[0] + (parts[1] + Concat(parts[2..]))
    ensures IsDigitRunSplit(Concat(parts[2..]), parts[2..])
    ensures Concat(parts[2..]) != [] ==> !IsDigit(Concat(parts[2..])[0])
  {
    var a, b, tail := parts[0], parts[1], parts[2..];
    assert parts == [a] + ([b] + tail);
    ConcatCons(b, tail);
    ConcatCons(a, [b] + tail);
    var rest := Concat(tail);
    assert tail == [tail[0]] + tail[1..];
    ConcatCons(tail[0], tail[1..]);
    assert NoDigits(tail[0]);
    if |parts| > 3 {
      assert parts[2] != [];
    } else {
      assert tail[1..] == [];
    }
    if rest != [] {
      assert rest[0] == tail[0][0];
    }
    forall i | 0 <= i < |tail|
      ensures tail[i] == parts[i + 2]
    {
    }
  }

  /** A digit-free string is one text run. */
  lemma SplitOfText(s: string)
    requires NoDigits(s)
    ensures SplitDigitRuns(s) == [s]
  {
    TextRunLengthOf(s, []);
    assert s + [] == s;
  }

  /** A text run, a digit run and a rest that does not start with a digit
      split into the two runs and the split of the rest. */
  lemma SplitOfRuns(a: string, b: string, rest: string)
    requires NoDigits(a) && b != [] && AllDigits(b) && (rest != [] ==> !IsDigit(rest[0]))
    ensures SplitDigitRuns(a + (b + rest)) == [a, b] + SplitDigitRuns(rest)
  {
    var s := a + (b + rest);
    assert IsDigit((b + rest)[0]);
    TextRunLengthOf(a, b + rest);
    DigitRunLengthOf(b, rest);
    assert s[..|a|] == a;
    assert s[|a|..] == b + rest;
    assert (b + rest)[..|b|] == b;
    assert (b + rest)[|b|..] == rest;
  }

  /** A digit-run split is unique: any split with the reference meaning is the
      one SplitDigitRuns computes. */
  lemma {:induction false} SplitDigitRunsUnique(s: string, parts: seq<string>)
    requires IsDigitRunSplit(s, parts)
    ensures parts == SplitDigitRuns(s)
    decreases |s|
  {
    if |parts| == 1 {
      ConcatCons(parts[0], []);
      assert parts == [parts[0]] + [];
      assert parts[0] + [] == parts[0];
      SplitOfText(s);
    } else {
      SplitTailFacts(s, parts);
      var a, b, tail := parts[0], parts[1], parts[2..];
      var rest := Concat(tail);
      SplitOfRuns(a, b, rest);
      SplitDigitRunsUnique(rest, tail);
      assert parts == [a, b] + tail;
    }
  }

  /** One token of a key, as the source's atoi helper builds it: a non-empty
      all-digit part becomes its integer value, any other part is lower-cased. */
  function Atoi(tok: string): Token {
    if tok != [] && AllDigits(tok) then Num(DigitsValue(tok)) else Text(Lower(tok))
  }

  /** The natural-sort key of a file name. */
  function NaturalKeys(text: string): (key: seq<Token>)
  {
    var parts := SplitDigitRuns(text);
    seq(|parts|, i requires 0 <= i < |parts| => Atoi(parts[i]))
  }

  /** The token of each part, in order, as NaturalKeys builds them. */
  function Tokens(parts: seq<string>): (key: seq<Token>)
    ensures |key| == |parts|
  {
    seq(|parts|, i requires 0 <= i < |parts| => Atoi(parts[i]))
  }

  /** Keys alternate text and number tokens, beginning and ending with text. */
  lemma NaturalKeysAlternate(text: string)
    ensures |NaturalKeys(text)| % 2 == 1
    ensures forall i :: 0 <= i < |NaturalKeys(text)| ==> (NaturalKeys(text)[i].Num? <==> i % 2 == 1)
  {
    var parts := SplitDigitRuns(text);
    SplitDigitRunsCorrect(text);
    forall i | 0 <= i < |parts|
      ensures NaturalKeys(text)[i].Num? <==> i % 2 == 1
    {
      if i % 2 == 0 && parts[i] != [] {
        assert !IsDigit(parts[i][0]);
      }
    }
  }

  // ---------- Ordering ----------

  /** Code-point lexicographic order on strings. */
  predicate StrLess(a: string, b: string) {
    if a == [] then b != []
    else b != [] && (if a[0] == b[0] then StrLess(a[1..], b[1..]) else a[0] < b[0])
  }

  /** Tokens of the same kind compare by value; tokens of different kinds are
      never compared (keys alternate, see NaturalKeysAlternate). */
  predicate TokenLess(x: Token, y: Token) {
    match x
    case Text(a) => y.Text? && StrLess(a, y.s)
    case Num(m) => y.Num? && m < y.n
  }

  /** Lexicographic order on keys, the way lists compare: the first differing
      position decides, and a proper prefix comes first. */
  predicate KeyLess(a: seq<Token>, b: seq<Token>) {
    if a == [] then b != []
    else b != [] && (if a[0] == b[0] then KeyLess(a[1..], b[1..]) else TokenLess(a[0], b[0]))
  }

  /** At every position both keys have, the two tokens are of the same kind. */
  predicate SameKinds(a: seq<Token>, b: seq<Token>) {
    forall i :: 0 <= i < |a| && i < |b| ==> (a[i].Num? <==> b[i].Num?)
  }

  predicate NameLess(x: string, y: string) {
    KeyLess(NaturalKeys(x), NaturalKeys(y))
  }

  lemma {:induction false} StrLessIrreflexive(a: string)
    ensures !StrLess(a, a)
    decreases |a|
  {
    if a != [] { StrLessIrreflexive(a[1..]); }
  }

  lemma {:induction false} StrLessTransitive(a: string, b: string, c: string)
    requires StrLess(a, b) && StrLess(b, c)
    ensures StrLess(a, c)
    decreases |a|
  {
    if a != [] && a[0] == b[0] && b[0] == c[0] {
      StrLessTransitive(a[1..], b[1..], c[1..]);
    }
  }

  lemma {:induction false} StrLessTotal(a: string, b: string)
    ensures a == b || StrLess(a, b) || StrLess(b, a)
    decreases |a|
  {
    if a != [] && b != [] && a[0] == b[0] {
      StrLessTotal(a[1..], b[1..]);
      if a[1..] == b[1..] {
        assert a == [a[0]] + a[1..] && b == [b[0]] + b[1..];
      }
    }
  }

  lemma {:induction false} KeyLessIrreflexive(a: seq<Token>)
    ensures !KeyLess(a, a)
    decreases |a|
  {
    if a != [] { KeyLessIrreflexive(a[1..]); }
  }

  lemma TokenLessTransitive(x: Token, y: Token, z: Token)
    requires TokenLess(x, y) && TokenLess(y, z)
    ensures TokenLess(x, z)
  {
    if x.Text? { StrLessTransitive(x.s, y.s, z.s); }
  }

  lemma {:induction false} KeyLessTransitive(a: seq<Token>, b: seq<Token>, c: seq<Token>)
    requires KeyLess(a, b) && KeyLess(b, c)
    ensures KeyLess(a, c)
    decreases |a|
  {
    if a != [] {
      if a[0] == b[0] && b[0] == c[0] {
        KeyLessTransitive(a[1..], b[1..], c[1..]);
      } else if a[0] != b[0] && b[0] != c[0] {
        TokenLessTransitive(a[0], b[0], c[0]);
        if a[0] == c[0] {
          // a[0] < b[0] < a[0] would make a token less than itself
          TokenLessTransitive(b[0], c[0], b[0]);
          if b[0].Text? { StrLessIrreflexive(b[0].s); }
        }
      }
    }
  }

  /** On keys whose tokens line up by kind, KeyLess is total: comparing two
      natural-sort keys never meets a number against a text. */
  lemma {:induction false} KeyLessTotal(a: seq<Token>, b: seq<Token>)
    requires SameKinds(a, b)
    ensures a == b || KeyLess(a, b) || KeyLess(b, a)
    decreases |a|
  {
    if a != [] && b != [] {
      if a[0] == b[0] {
        assert SameKinds(a[1..], b[1..]) by {
          forall i | 0 <= i < |a[1..]| && i < |b[1..]|
            ensures (a[1..][i].Num? <==> b[1..][i].Num?)
          {
            assert a[1..][i] == a[i + 1] && b[1..][i] == b[i + 1];
          }
        }
        KeyLessTotal(a[1..], b[1..]);
        if a[1..] == b[1..] {
          assert a == [a[0]] + a[1..] && b == [b[0]] + b[1..];
        }
      } else if a[0].Text? {
        assert b[0].Text?;
        StrLessTotal(a[0].s, b[0].s);
      }
    }
  }

  lemma NameLessIrreflexive(x: string)
    ensures !NameLess(x, x)
  {
    KeyLessIrreflexive(NaturalKeys(x));
  }

  lemma NameLessTransitive(x: string, y: string, z: string)
    requires NameLess(x, y) && NameLess(y, z)
    ensures NameLess(x, z)
  {
    KeyLessTransitive(NaturalKeys(x), NaturalKeys(y), NaturalKeys(z));
  }

  /** Any two names are ordered one way or the other unless their keys agree
      (names that differ only in letter case or leading zeros). */
  lemma NameLessTotal(x: string, y: string)
    ensures NaturalKeys(x) == NaturalKeys(y) || NameLess(x, y) || NameLess(y, x)
  {
    NaturalKeysAlternate(x);
    NaturalKeysAlternate(y);
    KeyLessTotal(NaturalKeys(x), NaturalKeys(y));
  }

  lemma {:induction false} ConcatAppend(a: seq<string>, b: seq<string>)
    ensures Concat(a + b) == Concat(a) + Concat(b)
    decreases |a|
  {
    if a == [] {
      assert a + b == b;
    } else {
      assert (a + b)[0] == a[0] && (a + b)[1..] == a[1..] + b;
      ConcatAppend(a[1..], b);
    }
  }

  /** A name that ends in a non-digit ends its split with a non-empty text part. */
  lemma {:induction false} SplitEndsWithText(p: string)
    requires p != [] && !IsDigit(p[|p| - 1])
    ensures SplitDigitRuns(p)[|SplitDigitRuns(p)| - 1] != []
    decreases |p|
  {
    var t := TextRunLength(p);
    if t != |p| {
      var u := p[t..];
      var d := DigitRunLength(u);
      var rest := u[d..];
      assert rest != [];
      assert rest[|rest| - 1] == p[|p| - 1];
      SplitEndsWithText(rest);
    }
  }

  /** Two splits joined by a digit run split the joined string, provided the
      text parts on either side of the run are non-empty wherever they become
      inner parts. */
  lemma JoinSplits(p: string, sp: seq<string>, d: string, r: string, sr: seq<string>)
    requires IsDigitRunSplit(p, sp) && IsDigitRunSplit(r, sr)
    requires |sp| > 1 ==> sp[|sp| - 1] != []
    requires |sr| > 1 ==> sr[0] != []
    requires d != [] && AllDigits(d)
    ensures IsDigitRunSplit(p + d + r, sp + [d] + sr)
  {
    ConcatAppend(sp + [d], sr);
    ConcatAppend(sp, [d]);
    ConcatCons(d, []);
    JoinTextParts(sp, d, sr);
    JoinDigitParts(sp, d, sr);
    JoinInnerText(sp, d, sr);
  }

  lemma JoinTextParts(sp: seq<string>, d: string, sr: seq<string>)
    requires |sp| % 2 == 1 && TextParts(sp) && TextParts(sr)
    ensures TextParts(sp + [d] + sr)
  {
    var parts, n := sp + [d] + sr, |sp|;
    forall i | 0 <= i < |parts| && i % 2 == 0
      ensures NoDigits(parts[i])
    {
      if i < n { assert parts[i] == sp[i]; } else { assert parts[i] == sr[i - n - 1]; }
    }
  }

  lemma JoinDigitParts(sp: seq<string>, d: string, sr: seq<string>)
    requires |sp| % 2 == 1 && DigitParts(sp) && DigitParts(sr)
    requires d != [] && AllDigits(d)
    ensures DigitParts(sp + [d] + sr)
  {
    var parts, n := sp + [d] + sr, |sp|;
    forall i | 0 <= i < |parts| && i % 2 == 1
      ensures parts[i] != [] && AllDigits(parts[i])
    {
      if i < n {
        assert parts[i] == sp[i];
      } else if i == n {
        assert parts[i] == d;
      } else {
        var j := i - n - 1;
        assert parts[i] == sr[j] && j % 2 == 1;
      }
    }
  }

  lemma JoinInnerText(sp: seq<string>, d: string, sr: seq<string>)
    requires |sp| % 2 == 1 && InnerTextNonEmpty(sp) && InnerTextNonEmpty(sr)
    requires |sp| > 1 ==> sp[|sp| - 1] != []
    requires |sr| > 1 ==> sr[0] != []
    ensures InnerTextNonEmpty(sp + [d] + sr)
  {
    var parts, n := sp + [d] + sr, |sp|;
    forall i | 0 < i < |parts| - 1 && i % 2 == 0
      ensures parts[i] != []
    {
      if i < n { assert parts[i] == sp[i]; } else { assert parts[i] == sr[i - n - 1]; }
    }
  }

  /** A name made of a head that is empty or ends in a non-digit, a digit run,
      and a tail that is empty or starts with a non-digit splits into the
      head's split, the run, and the tail's split. */
  lemma SplitAround(p: string, d: string, r: string)
    requires p == [] || !IsDigit(p[|p| - 1])
    requires d != [] && AllDigits(d)
    requires r == [] || !IsDigit(r[0])
    ensures SplitDigitRuns(p + d + r) == SplitDigitRuns(p) + [d] + SplitDigitRuns(r)
  {
    var sp, sr := SplitDigitRuns(p), SplitDigitRuns(r);
    SplitDigitRunsCorrect(p);
    SplitDigitRunsCorrect(r);
    if p != [] { SplitEndsWithText(p); }
    SplitStartsWithText(r);
    JoinSplits(p, sp, d, r, sr);
    SplitDigitRunsUnique(p + d + r, sp + [d] + sr);
  }

  /** The key of such a name is the head's key, the run's value and the
      tail's key. */
  lemma KeysAround(p: string, d: string, r: string)
    requires p == [] || !IsDigit(p[|p| - 1])
    requires d != [] && AllDigits(d)
    requires r == [] || !IsDigit(r[0])
    ensures NaturalKeys(p + d + r) == NaturalKeys(p) + [Num(DigitsValue(d))] + NaturalKeys(r)
  {
    SplitAround(p, d, r);
    TokensAround(SplitDigitRuns(p), d, SplitDigitRuns(r));
    assert NaturalKeys(p) == Tokens(SplitDigitRuns(p));
    assert NaturalKeys(r) == Tokens(SplitDigitRuns(r));
    assert NaturalKeys(p + d + r) == Tokens(SplitDigitRuns(p + d + r));
  }

  lemma TokensAround(sp: seq<string>, d: string, sr: seq<string>)
    requires d != [] && AllDigits(d)
    ensures Tokens(sp + [d] + sr) == Tokens(sp) + [Num(DigitsValue(d))] + Tokens(sr)
  {
    var key := Tokens(sp + [d] + sr);
    var k := Tokens(sp) + [Num(DigitsValue(d))] + Tokens(sr);
    forall i | 0 <= i < |k|
      ensures key[i] == k[i]
    {
      if i < |sp| {
        assert (sp + [d] + sr)[i] == sp[i];
      } else if i > |sp| {
        assert (sp + [d] + sr)[i] == sr[i - |sp| - 1];
      }
    }
  }

  /** A common prefix does not change how two keys compare. */
  lemma {:induction false} KeyLessAfterPrefix(k: seq<Token>, a: seq<Token>, b: seq<Token>)
    requires KeyLess(a, b)
    ensures KeyLess(k + a, k + b)
    decreases |k|
  {
    if k == [] {
      assert k + a == a && k + b == b;
    } else {
      assert (k + a)[0] == k[0] == (k + b)[0];
      assert (k + a)[1..] == k[1..] + a;
      assert (k + b)[1..] == k[1..] + b;
      KeyLessAfterPrefix(k[1..], a, b);
    }
  }

  /** Digit runs compare as numbers, not as text: two names that agree up to a
      digit run (the common head may itself hold digit runs, as in
      "20240101_120000_0002.mp4" against "20240101_120000_0010.mp4") are
      ordered by the values of those runs, whatever follows them. */
  lemma DigitRunsCompareNumerically(p: string, d1: string, d2: string, r1: string, r2: string)
    requires p == [] || !IsDigit(p[|p| - 1])
    requires d1 != [] && AllDigits(d1) && d2 != [] && AllDigits(d2)
    requires r1 == [] || !IsDigit(r1[0])
    requires r2 == [] || !IsDigit(r2[0])
    requires DigitsValue(d1) < DigitsValue(d2)
    ensures NameLess(p + d1 + r1, p + d2 + r2)
  {
    KeysAround(p, d1, r1);
    KeysAround(p, d2, r2);
    NumFirstLess(DigitsValue(d1), DigitsValue(d2), NaturalKeys(r1), NaturalKeys(r2));
    KeyLessAfterPrefix(NaturalKeys(p), [Num(DigitsValue(d1))] + NaturalKeys(r1),
                       [Num(DigitsValue(d2))] + NaturalKeys(r2));
    SharedHead(NaturalKeys(p), Num(DigitsValue(d1)), NaturalKeys(r1));
    SharedHead(NaturalKeys(p), Num(DigitsValue(d2)), NaturalKeys(r2));
  }

  lemma SharedHead(k: seq<Token>, t: Token, rest: seq<Token>)
    ensures k + [t] + rest == k + ([t] + rest)
  {
  }

  lemma NumFirstLess(m: nat, n: nat, a: seq<Token>, b: seq<Token>)
    requires m < n
    ensures KeyLess([Num(m)] + a, [Num(n)] + b)
  {
    assert ([Num(m)] + a)[0] == Num(m) && ([Num(n)] + b)[0] == Num(n);
  }

  /** "clip2" orders before "clip10", although as plain strings it is the other
      way round. */
  lemma Clip2BeforeClip10()
    ensures NameLess("clip2", "clip10") && !NameLess("clip10", "clip2")
    ensures StrLess("clip10", "clip2")
  {
    assert !IsDigit("clip"[3]);
    assert DigitsValue("2") == 2;
    assert DigitsValue("1") == 1;
    assert "10"[..1] == "1";
    assert DigitsValue("10") == 10;
    assert "clip" + "2" + "" == "clip2";
    assert "clip" + "10" + "" == "clip10";
    DigitRunsCompareNumerically("clip", "2", "10", "", "");
    KeyLessIrreflexive(NaturalKeys("clip2"));
    if NameLess("clip10", "clip2") {
      NameLessTransitive("clip2", "clip10", "clip2");
    }
  }

  // ---------- Letter case ----------

  lemma LowerAppend(a: string, b: string)
    ensures Lower(a + b) == Lower(a) + Lower(b)
  {
  }

  lemma LowerIdempotent(s: string)
    ensures Lower(Lower(s)) == Lower(s)
  {
  }

  function LowerAll(parts: seq<string>): (r: seq<string>)
    ensures |r| == |parts|
  {
    seq(|parts|, i requires 0 <= i < |parts| => Lower(parts[i]))
  }

  lemma {:induction false} LowerConcat(parts: seq<string>)
    ensures Concat(LowerAll(parts)) == Lower(Concat(parts))
    decreases |parts|
  {
    if parts != [] {
      assert LowerAll(parts)[1..] == LowerAll(parts[1..]);
      LowerConcat(parts[1..]);
      LowerAppend(parts[0], Concat(parts[1..]));
    }
  }

  /** Lower-casing every part of a digit-run split gives a digit-run split of
      the lower-cased string. */
  lemma LowerSplit(s: string, parts: seq<string>)
    requires IsDigitRunSplit(s, parts)
    ensures IsDigitRunSplit(Lower(s), LowerAll(parts))
  {
    var lowered := LowerAll(parts);
    LowerConcat(parts);
    forall i | 0 <= i < |parts| && i % 2 == 0
      ensures NoDigits(lowered[i])
    {
      assert NoDigits(parts[i]);
    }
    forall i | 0 <= i < |parts| && i % 2 == 1
      ensures lowered[i] != [] && AllDigits(lowered[i])
    {
      assert AllDigits(parts[i]);
    }
  }

  /** Lower-casing commutes with splitting: digits are left alone by it. */
  lemma SplitOfLower(s: string)
    ensures SplitDigitRuns(Lower(s)) == LowerAll(SplitDigitRuns(s))
  {
    SplitDigitRunsCorrect(s);
    LowerSplit(s, SplitDigitRuns(s));
    SplitDigitRunsUnique(Lower(s), LowerAll(SplitDigitRuns(s)));
  }

  lemma AtoiOfLower(p: string)
    ensures Atoi(Lower(p)) == Atoi(p)
  {
    LowerIdempotent(p);
    if p != [] && AllDigits(p) {
      assert Lower(p) == p;
    } else if p != [] {
      var j :| 0 <= j < |p| && !IsDigit(p[j]);
      assert !IsDigit(Lower(p)[j]);
    }
  }

  /** Natural keys ignore letter case: a name and its lower-cased form get the
      same key. */
  lemma NaturalKeysIgnoreCase(s: string)
    ensures NaturalKeys(Lower(s)) == NaturalKeys(s)
  {
    var parts := SplitDigitRuns(s);
    SplitOfLower(s);
    forall i | 0 <= i < |parts|
      ensures Atoi(LowerAll(parts)[i]) == Atoi(parts[i])
    {
      AtoiOfLower(parts[i]);
    }
  }
}
