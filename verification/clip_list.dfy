/** Choosing the clips of a folder: regular files whose extension is ".mp4" in
    any letter case, in natural-sort order of their names. Both tools pick and
    order their clips this way. */
module ClipList {
  import opened NaturalSort
  import opened Wrappers

  /** One directory entry: its file name and whether it is a regular file. */
  datatype Entry = Entry(name: string, isFile: bool)

  /** Index of the last occurrence of c in s, or -1. */
  function RFind(s: string, c: char): (i: int)
    ensures -1 <= i < |s|
    ensures i >= 0 ==> s[i] == c
    ensures forall j :: i < j < |s| ==> s[j] != c
  {
    if s == [] then -1
    else if s[|s| - 1] == c then |s| - 1
    else RFind(s[..|s| - 1], c)
  }

  /** The extension of a file name as path objects report it: from the last
      dot on, unless that dot is the first or the last character. */
  function Suffix(name: string): string {
    var i := RFind(name, '.');
    if 0 < i < |name| - 1 then name[i..] else ""
  }

  predicate IsMp4(e: Entry) {
    e.isFile && Lower(Suffix(e.name)) == ".mp4"
  }

  lemma LowerCharIsDot(c: char)
    ensures LowerChar(c) == '.' <==> c == '.'
  {
  }

  /** A name has the ".mp4" extension exactly when it is longer than ".mp4"
      and ends in ".mp4" in some letter case (a bare ".mp4" is a hidden file
      with no extension). */
  lemma Mp4SuffixExactly(name: string)
    ensures Lower(Suffix(name)) == ".mp4" <==> |name| >= 5 && Lower(name[|name| - 4..]) == ".mp4"
  {
    var i := RFind(name, '.');
    if Lower(Suffix(name)) == ".mp4" {
      assert 0 < i < |name| - 1;
      assert |name[i..]| == 4;
      assert name[i..] == name[|name| - 4..];
    }
    if |name| >= 5 && Lower(name[|name| - 4..]) == ".mp4" {
      var tail := name[|name| - 4..];
      assert Lower(tail)[0] == LowerChar(tail[0]) && ".mp4"[0] == '.';
      LowerCharIsDot(tail[0]);
      assert name[|name| - 4] == '.';
      forall j | |name| - 4 < j < |name|
        ensures name[j] != '.'
      {
        var k := j - (|name| - 4);
        assert Lower(tail)[k] == LowerChar(tail[k]) && tail[k] == name[j];
        assert ".mp4"[1] != '.' && ".mp4"[2] != '.' && ".mp4"[3] != '.';
        LowerCharIsDot(name[j]);
      }
      assert i == |name| - 4;
    }
  }

  /** The names of the ".mp4" files among the entries, in listing order. */
  function Mp4Names(es: seq<Entry>): (names: seq<string>)
    ensures |names| <= |es|
    ensures forall n :: n in names <==> exists e :: e in es && IsMp4(e) && e.name == n
  {
    if es == [] then []
    else (if IsMp4(es[0]) then [es[0].name] else []) + Mp4Names(es[1..])
  }

  /** Insert x after every element that does not sort strictly after it, which
      keeps names with equal keys in their original order. */
  function Insert(x: string, s: seq<string>): seq<string> {
    if s == [] then [x]
    else if NameLess(x, s[0]) then [x] + s
    else [s[0]] + Insert(x, s[1..])
  }

  /** A sort of names by natural key; it is stable (SortByNaturalKeyStable). */
  function SortByNaturalKey(s: seq<string>): seq<string> {
    if s == [] then [] else Insert(s[|s| - 1], SortByNaturalKey(s[..|s| - 1]))
  }

  /** No name sorts strictly before a name placed ahead of it. */
  predicate NaturallySorted(s: seq<string>) {
    forall i, j :: 0 <= i < j < |s| ==> !NameLess(s[j], s[i])
  }

  lemma {:induction false} InsertPermutes(x: string, s: seq<string>)
    ensures multiset(Insert(x, s)) == multiset(s) + multiset{x}
    decreases |s|
  {
    if s == [] {
    } else if NameLess(x, s[0]) {
      assert Insert(x, s) == [x] + s;
    } else {
      assert Insert(x, s) == [s[0]] + Insert(x, s[1..]);
      InsertPermutes(x, s[1..]);
      assert s == [s[0]] + s[1..];
    }
  }

  /** No element of s sorts strictly before b. */
  predicate NoneBefore(b: string, s: seq<string>) {
    forall k :: 0 <= k < |s| ==> !NameLess(s[k], b)
  }

  lemma {:induction false} InsertNoneBefore(x: string, s: seq<string>, b: string)
    requires NoneBefore(b, s) && !NameLess(x, b)
    ensures NoneBefore(b, Insert(x, s))
    decreases |s|
  {
    if s != [] && !NameLess(x, s[0]) {
      assert Insert(x, s) == [s[0]] + Insert(x, s[1..]);
      assert NoneBefore(b, s[1..]) by {
        forall k | 0 <= k < |s[1..]| ensures !NameLess(s[1..][k], b) {
          assert s[1..][k] == s[k + 1];
        }
      }
      InsertNoneBefore(x, s[1..], b);
    }
  }

  lemma ConsSorted(a: string, t: seq<string>)
    requires NoneBefore(a, t) && NaturallySorted(t)
    ensures NaturallySorted([a] + t)
  {
    var r := [a] + t;
    forall i, j | 0 <= i < j < |r|
      ensures !NameLess(r[j], r[i])
    {
      assert r[j] == t[j - 1];
      if i > 0 { assert r[i] == t[i - 1]; }
    }
  }

  /** If x sorts strictly before s[0], nothing in s sorts strictly before x. */
  lemma NoneBeforeSmaller(x: string, s: seq<string>)
    requires s != [] && NaturallySorted(s) && NameLess(x, s[0])
    ensures NoneBefore(x, s)
  {
    forall k | 0 <= k < |s|
      ensures !NameLess(s[k], x)
    {
      if NameLess(s[k], x) {
        NameLessTransitive(s[k], x, s[0]);
        if k == 0 { NameLessIrreflexive(s[0]); }
      }
    }
  }

  lemma {:induction false} InsertSorted(x: string, s: seq<string>)
    requires NaturallySorted(s)
    ensures NaturallySorted(Insert(x, s))
    decreases |s|
  {
    if s == [] {
    } else if NameLess(x, s[0]) {
      NoneBeforeSmaller(x, s);
      ConsSorted(x, s);
    } else {
      var t := s[1..];
      assert NaturallySorted(t) by {
        forall i, j | 0 <= i < j < |t| ensures !NameLess(t[j], t[i]) {
          assert t[j] == s[j + 1] && t[i] == s[i + 1];
        }
      }
      assert NoneBefore(s[0], t) by {
        forall k | 0 <= k < |t| ensures !NameLess(t[k], s[0]) {
          assert t[k] == s[k + 1];
        }
      }
      InsertSorted(x, t);
      InsertNoneBefore(x, t, s[0]);
      ConsSorted(s[0], Insert(x, t));
    }
  }

  /** The sort returns the same names, in natural order. */
  lemma {:induction false} SortByNaturalKeyCorrect(s: seq<string>)
    ensures NaturallySorted(SortByNaturalKey(s))
    ensures multiset(SortByNaturalKey(s)) == multiset(s)
    decreases |s|
  {
    if s != [] {
      var init := s[..|s| - 1];
      SortByNaturalKeyCorrect(init);
      InsertSorted(s[|s| - 1], SortByNaturalKey(init));
      InsertPermutes(s[|s| - 1], SortByNaturalKey(init));
      assert s == init + [s[|s| - 1]];
    }
  }

  // ---------- Stability ----------

  /** The names of s whose key is k, in their order in s. */
  function WithKey(s: seq<string>, k: seq<Token>): seq<string> {
    if s == [] then [] else Keep(s[0], k) + WithKey(s[1..], k)
  }

  /** [n] when n has key k, else nothing. */
  function Keep(n: string, k: seq<Token>): seq<string> {
    if NaturalKeys(n) == k then [n] else []
  }

  lemma {:induction false} WithKeyAppend(a: seq<string>, b: seq<string>, k: seq<Token>)
    ensures WithKey(a + b, k) == WithKey(a, k) + WithKey(b, k)
    decreases |a|
  {
    if a == [] {
      assert a + b == b;
    } else {
      assert (a + b)[0] == a[0] && (a + b)[1..] == a[1..] + b;
      WithKeyAppend(a[1..], b, k);
      calc {
        WithKey(a + b, k);
        Keep(a[0], k) + WithKey(a[1..] + b, k);
        Keep(a[0], k) + (WithKey(a[1..], k) + WithKey(b, k));
        WithKey(a, k) + WithKey(b, k);
      }
    }
  }

  lemma WithKeySingle(n: string, k: seq<Token>)
    ensures WithKey([n], k) == Keep(n, k)
  {
    assert [n][1..] == [];
  }

  lemma {:induction false} WithKeyNone(s: seq<string>, k: seq<Token>)
    requires forall j :: 0 <= j < |s| ==> NaturalKeys(s[j]) != k
    ensures WithKey(s, k) == []
    decreases |s|
  {
    if s != [] {
      WithKeyNone(s[1..], k);
    }
  }

  /** The names that x sorts strictly before, when it sorts strictly before
      the head of a sorted list, include none with x's key. */
  lemma NoneWithKeyAfter(x: string, s: seq<string>)
    requires s != [] && NaturallySorted(s) && NameLess(x, s[0])
    ensures WithKey(s, NaturalKeys(x)) == []
  {
    forall j | 0 <= j < |s|
      ensures NaturalKeys(s[j]) != NaturalKeys(x)
    {
      if NaturalKeys(s[j]) == NaturalKeys(x) {
        assert NameLess(s[j], s[0]);
        if j == 0 { NameLessIrreflexive(s[0]); }
      }
    }
    WithKeyNone(s, NaturalKeys(x));
  }

  /** Inserting x into a sorted list puts it after every name with its key. */
  lemma {:induction false} InsertWithKey(x: string, s: seq<string>, k: seq<Token>)
    requires NaturallySorted(s)
    ensures WithKey(Insert(x, s), k) == WithKey(s, k) + WithKey([x], k)
    decreases |s|
  {
    if s == [] {
    } else if NameLess(x, s[0]) {
      assert Insert(x, s) == [x] + s;
      WithKeyFront(x, s, k);
    } else {
      var t := s[1..];
      SortedTail(s);
      assert Insert(x, s) == [s[0]] + Insert(x, t);
      InsertWithKey(x, t, k);
      WithKeyPast(s[0], Insert(x, t), t, WithKey([x], k), k);
      assert s == [s[0]] + t;
    }
  }

  lemma SortedTail(s: seq<string>)
    requires s != [] && NaturallySorted(s)
    ensures NaturallySorted(s[1..])
  {
    var t := s[1..];
    forall i, j | 0 <= i < j < |t| ensures !NameLess(t[j], t[i]) {
      assert t[j] == s[j + 1] && t[i] == s[i + 1];
    }
  }

  /** Placing x in front of a sorted list whose head it sorts before. */
  lemma WithKeyFront(x: string, s: seq<string>, k: seq<Token>)
    requires s != [] && NaturallySorted(s) && NameLess(x, s[0])
    ensures WithKey([x] + s, k) == WithKey(s, k) + WithKey([x], k)
  {
    WithKeyAppend([x], s, k);
    if NaturalKeys(x) == k {
      NoneWithKeyAfter(x, s);
    }
  }

  /** Keeping the head in front of a list whose names with key k gained xs at
      the end. */
  lemma WithKeyPast(h: string, u: seq<string>, t: seq<string>, xs: seq<string>, k: seq<Token>)
    requires WithKey(u, k) == WithKey(t, k) + xs
    ensures WithKey([h] + u, k) == WithKey([h] + t, k) + xs
  {
    WithKeyAppend([h], u, k);
    WithKeyAppend([h], t, k);
    WithKeySingle(h, k);
  }

  /** The sort is stable: names with the same key (such as "A.mp4" and
      "a.mp4") keep the order they had in the input. */
  lemma {:induction false} SortByNaturalKeyStable(s: seq<string>, k: seq<Token>)
    ensures WithKey(SortByNaturalKey(s), k) == WithKey(s, k)
    decreases |s|
  {
    if s != [] {
      var init, last := s[..|s| - 1], s[|s| - 1];
      SortByNaturalKeyStable(init, k);
      SortByNaturalKeyCorrect(init);
      InsertWithKey(last, SortByNaturalKey(init), k);
      assert s == init + [last];
      WithKeyAppend(init, [last], k);
    }
  }

  /** The clip list of a folder, or None when it holds no ".mp4" file (both
      tools report an error then). */
  function SelectMp4(es: seq<Entry>): Option<seq<string>> {
    var names := Mp4Names(es);
    if names == [] then None else Some(SortByNaturalKey(names))
  }

  /** The selection is empty exactly when no entry is an ".mp4" file;
      otherwise it holds exactly the ".mp4" names, each as often as listed, in
      natural order. */
  lemma SelectMp4Correct(es: seq<Entry>)
    ensures SelectMp4(es).None? <==> forall e :: e in es ==> !IsMp4(e)
    ensures SelectMp4(es).Some? ==>
              && NaturallySorted(SelectMp4(es).value)
              && multiset(SelectMp4(es).value) == multiset(Mp4Names(es))
              && (forall n :: n in SelectMp4(es).value <==> exists e :: e in es && IsMp4(e) && e.name == n)
  {
    var names := Mp4Names(es);
    if names == [] {
      assert forall e :: e in es ==> (IsMp4(e) ==> e.name in names);
    } else {
      assert names[0] in names;
      SortByNaturalKeyCorrect(names);
      SameMembers(SortByNaturalKey(names), names);
    }
  }

  /** Lists with the same multiset have the same members. */
  lemma SameMembers(a: seq<string>, b: seq<string>)
    requires multiset(a) == multiset(b)
    ensures forall n :: n in a <==> n in b
  {
    forall n ensures n in a <==> n in b {
      assert n in a <==> n in multiset(a);
      assert n in b <==> n in multiset(b);
    }
  }
}
