/** The subset of Go's `strings` package that the generator relies on, over
  * `seq<char>`. Case mapping is ASCII only. */
module Strings {
  import opened Wrappers

  /** strings.Count with a one-character needle. */
  function Count(s: string, c: char): (n: nat)
    ensures n <= |s|
    ensures n == 0 <==> c !in s
  {
    if s == [] then 0 else (if s[0] == c then 1 else 0) + Count(s[1..], c)
  }

  lemma {:induction false} CountAppend(a: string, b: string, c: char)
    ensures Count(a + b, c) == Count(a, c) + Count(b, c)
  {
    if a != [] {
      assert (a + b)[1..] == a[1..] + b;
      CountAppend(a[1..], b, c);
    } else {
      assert a + b == b;
    }
  }

  /** strings.Repeat of a one-character string. */
  function Repeat(c: char, n: nat): (r: string)
    ensures |r| == n
    ensures forall i :: 0 <= i < n ==> r[i] == c
  {
    if n == 0 then [] else [c] + Repeat(c, n - 1)
  }

  lemma {:induction false} CountRepeat(c: char, n: nat)
    ensures Count(Repeat(c, n), c) == n
  {
    if n > 0 {
      assert Repeat(c, n)[1..] == Repeat(c, n - 1);
      CountRepeat(c, n - 1);
    }
  }

  /** strings.ReplaceAll(s, string(c), ""). */
  function RemoveChar(s: string, c: char): (r: string)
    ensures c !in r
    ensures |r| + Count(s, c) == |s|
    ensures forall x :: x in r ==> x in s
  {
    if s == [] then [] else (if s[0] == c then [] else [s[0]]) + RemoveChar(s[1..], c)
  }

  /** strings.ReplaceAll(s, string(a), string(b)) for one-character strings. */
  function ReplaceChar(s: string, a: char, b: char): (r: string)
    ensures |r| == |s|
    ensures forall i :: 0 <= i < |s| ==> r[i] == (if s[i] == a then b else s[i])
  {
    if s == [] then [] else [if s[0] == a then b else s[0]] + ReplaceChar(s[1..], a, b)
  }

  predicate HasPrefix(s: string, p: string) {
    |p| <= |s| && s[..|p|] == p
  }

  predicate HasSuffix(s: string, p: string) {
    |p| <= |s| && s[|s| - |p|..] == p
  }

  /** strings.CutPrefix: the rest after the prefix and whether it was there. */
  function CutPrefix(s: string, p: string): (r: (string, bool))
    ensures r.1 == HasPrefix(s, p)
    ensures r.1 ==> p + r.0 == s
    ensures !r.1 ==> r.0 == s
  {
    if HasPrefix(s, p) then
      assert s == s[..|p|] + s[|p|..];
      (s[|p|..], true)
    else (s, false)
  }

  /** strings.CutSuffix: the text before the suffix and whether it was
    * there. */
  function CutSuffix(s: string, p: string): (r: (string, bool))
    ensures r.1 == HasSuffix(s, p)
    ensures r.1 ==> r.0 + p == s
    ensures !r.1 ==> r.0 == s
  {
    if HasSuffix(s, p) then
      assert s == s[..|s| - |p|] + s[|s| - |p|..];
      (s[..|s| - |p|], true)
    else (s, false)
  }

  /** strings.ReplaceAll for a non-empty pattern: leftmost, non-overlapping. */
  function ReplaceAll(s: string, pat: string, rep: string): (r: string)
    requires |pat| > 0
    decreases |s|
  {
    if |s| < |pat| then s
    else if s[..|pat|] == pat then rep + ReplaceAll(s[|pat|..], pat, rep)
    else [s[0]] + ReplaceAll(s[1..], pat, rep)
  }

  /** The pattern occurs in s at position i. */
  predicate OccursAt(s: string, pat: string, i: nat) {
    i + |pat| <= |s| && s[i..i + |pat|] == pat
  }

  /** A string without the pattern is left unchanged. */
  lemma {:induction false} ReplaceAllAbsent(s: string, pat: string, rep: string)
    requires |pat| > 0
    requires forall i: nat :: !OccursAt(s, pat, i)
    ensures ReplaceAll(s, pat, rep) == s
    decreases |s|
  {
    if |s| >= |pat| {
      assert !OccursAt(s, pat, 0);
      var t := s[1..];
      forall i: nat ensures !OccursAt(t, pat, i) {
        if i + |pat| <= |t| {
          assert t[i..i + |pat|] == s[i + 1..i + 1 + |pat|];
          assert !OccursAt(s, pat, i + 1);
        }
      }
      ReplaceAllAbsent(t, pat, rep);
      assert [s[0]] + t == s;
    }
  }

  /** A string that starts with the pattern loses it in front. */
  lemma ReplaceAllFront(pat: string, y: string, rep: string)
    requires |pat| > 0
    ensures ReplaceAll(pat + y, pat, rep) == rep + ReplaceAll(y, pat, rep)
  {
    assert (pat + y)[..|pat|] == pat && (pat + y)[|pat|..] == y;
  }

  /** A front part in which no occurrence of the pattern starts is kept. */
  lemma {:induction false} ReplaceAllKeepFront(x: string, y: string, pat: string, rep: string)
    requires |pat| > 0
    requires forall i: nat :: i < |x| ==> !OccursAt(x + y, pat, i)
    ensures ReplaceAll(x + y, pat, rep) == x + ReplaceAll(y, pat, rep)
    decreases |x|
  {
    if x != [] {
      var s := x + y;
      assert !OccursAt(s, pat, 0);
      assert s[1..] == x[1..] + y;
      forall i: nat | i < |x[1..]| ensures !OccursAt(x[1..] + y, pat, i) {
        if i + |pat| <= |s[1..]| {
          assert s[1..][i..i + |pat|] == s[i + 1..i + 1 + |pat|];
        }
        assert !OccursAt(s, pat, i + 1);
      }
      ReplaceAllKeepFront(x[1..], y, pat, rep);
      if |s| < |pat| {
        ReplaceAllShort(y, pat, rep);
      }
      assert [s[0]] + (x[1..] + ReplaceAll(y, pat, rep)) == x + ReplaceAll(y, pat, rep);
    } else {
      assert x + y == y;
    }
  }

  lemma ReplaceAllShort(s: string, pat: string, rep: string)
    requires 0 < |pat| && |s| < |pat|
    ensures ReplaceAll(s, pat, rep) == s
  {
  }

  /** An occurrence of p + q is an occurrence of p followed by one of q. */
  lemma OccursSplit(s: string, p: string, q: string, i: nat)
    requires OccursAt(s, p + q, i)
    ensures OccursAt(s, p, i) && OccursAt(s, q, i + |p|)
  {
    assert s[i..i + |p|] == s[i..i + |p + q|][..|p|];
    assert s[i + |p|..i + |p| + |q|] == s[i..i + |p + q|][|p|..];
  }

  /** An occurrence inside the front part of x + y is one in x. */
  lemma OccursInFront(x: string, y: string, pat: string, i: nat)
    requires i + |pat| <= |x| && OccursAt(x + y, pat, i)
    ensures OccursAt(x, pat, i)
  {
    assert (x + y)[i..i + |pat|] == x[i..i + |pat|];
  }

  /** An occurrence that starts in x and ends in y covers y's first
    * character, and x ends with the part of the pattern before it. */
  lemma OccursAcross(x: string, y: string, pat: string, i: nat)
    requires i < |x| < i + |pat| && OccursAt(x + y, pat, i)
    ensures |y| > 0 && pat[|x| - i] == y[0] && OccursAt(x, pat[..|x| - i], i)
  {
    var s := x + y;
    assert s[i..i + |pat|][|x| - i] == s[|x|];
    assert s[|x|] == y[0];
    assert x[i..|x|] == s[i..i + |pat|][..|x| - i];
  }

  /** Replacing with the empty string never makes the string longer. */
  lemma {:induction false} ReplaceAllShrinks(s: string, pat: string)
    requires |pat| > 0
    ensures |ReplaceAll(s, pat, "")| <= |s|
    decreases |s|
  {
    if |s| >= |pat| {
      if s[..|pat|] == pat {
        ReplaceAllShrinks(s[|pat|..], pat);
      } else {
        ReplaceAllShrinks(s[1..], pat);
      }
    }
  }

  /** A pattern with a character that s lacks occurs nowhere in s. */
  lemma NoOccurrence(s: string, pat: string, k: nat)
    requires k < |pat| && pat[k] !in s
    ensures forall i: nat :: !OccursAt(s, pat, i)
  {
    forall i: nat ensures !OccursAt(s, pat, i) {
      if i + |pat| <= |s| {
        assert s[i..i + |pat|][k] == s[i + k];
      }
    }
  }

  /** Replacing a pattern that does not involve c keeps the number of c's. */
  lemma {:induction false} ReplaceAllKeepsCount(s: string, pat: string, rep: string, c: char)
    requires |pat| > 0 && c !in pat && c !in rep
    ensures Count(ReplaceAll(s, pat, rep), c) == Count(s, c)
    decreases |s|
  {
    if |s| >= |pat| {
      if s[..|pat|] == pat {
        ReplaceAllKeepsCount(s[|pat|..], pat, rep, c);
        CountAppend(rep, ReplaceAll(s[|pat|..], pat, rep), c);
        assert s == pat + s[|pat|..];
        CountAppend(pat, s[|pat|..], c);
      } else {
        ReplaceAllKeepsCount(s[1..], pat, rep, c);
        CountAppend([s[0]], ReplaceAll(s[1..], pat, rep), c);
        assert s == [s[0]] + s[1..];
        CountAppend([s[0]], s[1..], c);
      }
    }
  }

  /** With a one-character pattern and an empty replacement, ReplaceAll
    * removes that character. */
  lemma {:induction false} ReplaceAllRemovesChar(s: string, c: char)
    ensures ReplaceAll(s, [c], "") == RemoveChar(s, c)
    decreases |s|
  {
    if s != [] {
      ReplaceAllRemovesChar(s[1..], c);
      assert s[..1] == [s[0]];
    }
  }

  lemma {:induction false} RemoveCharAppend(a: string, b: string, c: char)
    ensures RemoveChar(a + b, c) == RemoveChar(a, c) + RemoveChar(b, c)
  {
    if a != [] {
      assert (a + b)[1..] == a[1..] + b;
      RemoveCharAppend(a[1..], b, c);
    } else {
      assert a + b == b;
    }
  }

  lemma {:induction false} RemoveCharRepeat(c: char, n: nat)
    ensures RemoveChar(Repeat(c, n), c) == []
  {
    if n > 0 {
      var r := Repeat(c, n);
      assert r[0] == c;
      assert r[1..] == Repeat(c, n - 1);
      RemoveCharRepeat(c, n - 1);
    }
  }

  lemma {:induction false} RemoveCharAbsent(s: string, c: char)
    requires c !in s
    ensures RemoveChar(s, c) == s
  {
    if s != [] {
      RemoveCharAbsent(s[1..], c);
    }
  }

  /** strings.Split with a one-character separator: never empty, "" gives [""]. */
  function Split(s: string, sep: char): (parts: seq<string>)
    ensures |parts| == Count(s, sep) + 1
    ensures forall i :: 0 <= i < |parts| ==> sep !in parts[i]
  {
    if s == [] then [[]]
    else
      var rest := Split(s[1..], sep);
      if s[0] == sep then [[]] + rest
      else [[s[0]] + rest[0]] + rest[1..]
  }

  /** strings.Join with a one-character separator. */
  function Join(parts: seq<string>, sep: char): (s: string)
  {
    if parts == [] then []
    else if |parts| == 1 then parts[0]
    else parts[0] + [sep] + Join(parts[1..], sep)
  }

  lemma {:induction false} JoinConsHead(c: char, parts: seq<string>, sep: char)
    requires |parts| >= 1
    ensures Join([[c] + parts[0]] + parts[1..], sep) == [c] + Join(parts, sep)
  {
    var ps := [[c] + parts[0]] + parts[1..];
    assert ps[1..] == parts[1..];
  }

  /** Joining what Split produced gives the original string back. */
  lemma {:induction false} JoinSplit(s: string, sep: char)
    ensures Join(Split(s, sep), sep) == s
  {
    if s != [] {
      var rest := Split(s[1..], sep);
      JoinSplit(s[1..], sep);
      if s[0] == sep {
        assert ([[]] + rest)[1..] == rest;
        assert Join([[]] + rest, sep) == [] + [sep] + Join(rest, sep);
        assert [s[0]] + s[1..] == s;
      } else {
        JoinConsHead(s[0], rest, sep);
        assert [s[0]] + s[1..] == s;
      }
    }
  }

  /** A separator-free prefix followed by the separator is split off whole. */
  lemma {:induction false} SplitPrefix(a: string, sep: char, rest: string)
    requires sep !in a
    ensures Split(a + [sep] + rest, sep) == [a] + Split(rest, sep)
  {
    var s := a + [sep] + rest;
    if a == [] {
      assert s[1..] == rest;
    } else {
      assert s[1..] == a[1..] + [sep] + rest;
      assert forall x :: x in a[1..] ==> x in a;
      SplitPrefix(a[1..], sep, rest);
      assert [a[0]] + a[1..] == a;
    }
  }

  /** Splitting a join of separator-free parts gives the parts back. */
  lemma {:induction false} SplitJoin(parts: seq<string>, sep: char)
    requires |parts| >= 1
    requires forall i :: 0 <= i < |parts| ==> sep !in parts[i]
    ensures Split(Join(parts, sep), sep) == parts
    decreases |parts|
  {
    if |parts| == 1 {
      SplitNoSep(parts[0], sep);
    } else {
      SplitJoin(parts[1..], sep);
      SplitPrefix(parts[0], sep, Join(parts[1..], sep));
      assert [parts[0]] + parts[1..] == parts;
    }
  }

  lemma {:induction false} SplitNoSep(s: string, sep: char)
    requires sep !in s
    ensures Split(s, sep) == [s]
  {
    if s != [] {
      assert forall x :: x in s[1..] ==> x in s;
      SplitNoSep(s[1..], sep);
      assert [s[0]] + s[1..] == s;
    }
  }

  /** Index of the last occurrence of c, or -1 (strings.LastIndex). */
  function LastIndex(s: string, c: char): (i: int)
    ensures -1 <= i < |s|
    ensures i >= 0 ==> s[i] == c && c !in s[i + 1..]
    ensures i == -1 ==> c !in s
  {
    if s == [] then -1
    else if s[|s| - 1] == c then |s| - 1
    else
      var j := LastIndex(s[..|s| - 1], c);
      assert j >= 0 ==> s[j + 1..] == s[..|s| - 1][j + 1..] + [s[|s| - 1]];
      j
  }

  /** White space as Go's unicode.IsSpace sees it, restricted to Latin-1. */
  predicate IsSpace(c: char) {
    c == ' ' || c == '\t' || c == '\n' || c == '\r' || c == '\U{0B}' || c == '\U{0C}'
    || c == '\U{85}' || c == '\U{A0}'
  }

  function TrimLeftSpace(s: string): (r: string)
    ensures |r| <= |s| && r == s[|s| - |r|..]
    ensures r == [] || !IsSpace(r[0])
  {
    if s != [] && IsSpace(s[0]) then TrimLeftSpace(s[1..]) else s
  }

  function TrimRightSpace(s: string): (r: string)
    ensures |r| <= |s| && r == s[..|r|]
    ensures r == [] || !IsSpace(r[|r| - 1])
  {
    if s != [] && IsSpace(s[|s| - 1]) then TrimRightSpace(s[..|s| - 1]) else s
  }

  /** strings.TrimSpace: no white space is left at either end. */
  function TrimSpace(s: string): (r: string)
    ensures r == [] || (!IsSpace(r[0]) && !IsSpace(r[|r| - 1]))
  {
    TrimRightSpace(TrimLeftSpace(s))
  }

  predicate IsUpper(c: char) { 'A' <= c <= 'Z' }
  predicate IsLower(c: char) { 'a' <= c <= 'z' }
  predicate IsDigit(c: char) { '0' <= c <= '9' }
  predicate IsLetter(c: char) { IsUpper(c) || IsLower(c) }

  function ToLowerChar(c: char): (r: char)
    ensures !IsUpper(r)
    ensures IsLetter(c) <==> IsLetter(r)
    ensures IsDigit(c) <==> IsDigit(r)
  {
    if IsUpper(c) then (c as int + 32) as char else c
  }

  function ToUpperChar(c: char): (r: char)
    ensures !IsLower(r)
    ensures IsLetter(c) <==> IsLetter(r)
  {
    if IsLower(c) then (c as int - 32) as char else c
  }

  /** strings.ToLower (ASCII letters only). */
  function ToLower(s: string): (r: string)
    ensures |r| == |s|
    ensures forall i :: 0 <= i < |s| ==> r[i] == ToLowerChar(s[i])
  {
    if s == [] then [] else [ToLowerChar(s[0])] + ToLower(s[1..])
  }

  /** A Go map from strings to strings with distinct keys, as an association
    * list. */
  type Table = seq<(string, string)>

  /** The value stored under key, if any. */
  function Lookup(t: Table, key: string): Option<string> {
    if t == [] then None else if t[0].0 == key then Some(t[0].1) else Lookup(t[1..], key)
  }

  /** A key no entry has is not found. */
  lemma {:induction false} LookupAbsent(t: Table, key: string)
    requires forall i :: 0 <= i < |t| ==> t[i].0 != key
    ensures Lookup(t, key) == None
  {
    if t != [] {
      LookupAbsent(t[1..], key);
    }
  }

  /** A key is found exactly when some entry has it, and then the first
    * such entry's value comes back. */
  lemma {:induction false} LookupFirst(t: Table, key: string)
    ensures Lookup(t, key).Some? <==> exists i :: 0 <= i < |t| && t[i].0 == key
    ensures Lookup(t, key).Some? ==>
      exists i :: 0 <= i < |t| && t[i] == (key, Lookup(t, key).value) && (forall j :: 0 <= j < i ==> t[j].0 != key)
  {
    if t != [] && t[0].0 != key {
      LookupFirst(t[1..], key);
      if Lookup(t, key).Some? {
        var i :| 0 <= i < |t[1..]| && t[1..][i] == (key, Lookup(t, key).value)
          && forall j :: 0 <= j < i ==> t[1..][j].0 != key;
        assert t[i + 1] == (key, Lookup(t, key).value);
      }
    }
  }

  // ---------------------------------------------------------------------------
  // Ordering and sorting (cmp.Compare on strings, slices.SortFunc)

  /** Go's string order: byte-wise lexicographic, which on UTF-8 text is
    * the lexicographic order of code points. */
  predicate StrLessEq(a: string, b: string) {
    a == [] || (b != [] && (a[0] < b[0] || (a[0] == b[0] && StrLessEq(a[1..], b[1..]))))
  }

  lemma {:induction false} StrLessEqTotal(a: string, b: string)
    ensures StrLessEq(a, b) || StrLessEq(b, a)
  {
    if a != [] && b != [] && a[0] == b[0] {
      StrLessEqTotal(a[1..], b[1..]);
    }
  }

  lemma {:induction false} StrLessEqTrans(a: string, b: string, c: string)
    requires StrLessEq(a, b) && StrLessEq(b, c)
    ensures StrLessEq(a, c)
  {
    if a != [] && a[0] == b[0] && b[0] == c[0] {
      StrLessEqTrans(a[1..], b[1..], c[1..]);
    }
  }

  lemma {:induction false} StrLessEqAntisym(a: string, b: string)
    requires StrLessEq(a, b) && StrLessEq(b, a)
    ensures a == b
  {
    if a != [] {
      StrLessEqAntisym(a[1..], b[1..]);
      assert a == [a[0]] + a[1..] && b == [b[0]] + b[1..];
    }
  }

  /** Ordered by a string key, as slices.SortFunc with cmp.Compare on that
    * key leaves a slice. */
  predicate SortedBy<T>(s: seq<T>, key: T -> string) {
    forall i, j :: 0 <= i < j < |s| ==> StrLessEq(key(s[i]), key(s[j]))
  }

  /** Inserts x after the elements whose keys are not above its own. */
  method InsertByKey<T>(s: seq<T>, x: T, key: T -> string) returns (r: seq<T>)
    requires SortedBy(s, key)
    ensures SortedBy(r, key)
    ensures multiset(r) == multiset(s) + multiset{x}
  {
    var i := 0;
    while i < |s| && StrLessEq(key(s[i]), key(x))
      invariant 0 <= i <= |s|
      invariant forall k :: 0 <= k < i ==> StrLessEq(key(s[k]), key(x))
    {
      i := i + 1;
    }
    if i < |s| {
      StrLessEqTotal(key(s[i]), key(x));
      forall k | i <= k < |s|
        ensures StrLessEq(key(x), key(s[k]))
      {
        if k > i {
          StrLessEqTrans(key(x), key(s[i]), key(s[k]));
        }
      }
    }
    r := s[..i] + [x] + s[i..];
    assert s == s[..i] + s[i..];
    InsertedSorted(s, i, x, key);
  }

  /** x placed between the keys not above its own and those not below it
    * keeps the order. */
  lemma InsertedSorted<T>(s: seq<T>, i: nat, x: T, key: T -> string)
    requires i <= |s| && SortedBy(s, key)
    requires forall k :: 0 <= k < i ==> StrLessEq(key(s[k]), key(x))
    requires forall k :: i <= k < |s| ==> StrLessEq(key(x), key(s[k]))
    ensures SortedBy(s[..i] + [x] + s[i..], key)
  {
    var r := s[..i] + [x] + s[i..];
    forall a, b | 0 <= a < b < |r|
      ensures StrLessEq(key(r[a]), key(r[b]))
    {
      var ra := if a < i then s[a] else if a == i then x else s[a - 1];
      var rb := if b < i then s[b] else if b == i then x else s[b - 1];
      assert r[a] == ra && r[b] == rb;
      if a < i && b > i {
        StrLessEqTrans(key(s[a]), key(x), key(s[b - 1]));
      }
    }
  }

  /** Sorts by a string key; the result is a permutation of the input. */
  method SortByKey<T>(s: seq<T>, key: T -> string) returns (r: seq<T>)
    ensures SortedBy(r, key)
    ensures multiset(r) == multiset(s)
  {
    r := [];
    for i := 0 to |s|
      invariant SortedBy(r, key)
      invariant multiset(r) == multiset(s[..i])
    {
      r := InsertByKey(r, s[i], key);
      assert s[..i + 1] == s[..i] + [s[i]];
    }
    assert s[..|s|] == s;
  }
}
