/**
 The string operations of the Go standard library that the bridge uses, on ASCII text: one
 char is one byte, and case and white space are those of ASCII.
 */
module Text {

  // ----- Splitting and joining -----

  /** The position of the first c in s, or |s|. */
  function First(s: string, c: char): (i: nat)
    ensures i <= |s| && (i < |s| ==> s[i] == c)
  {
    if s == "" || s[0] == c then 0 else 1 + First(s[1..], c)
  }

  lemma {:induction false} FirstIs(s: string, c: char, n: nat)
    requires n <= |s| && (n < |s| ==> s[n] == c)
    requires forall k :: 0 <= k < n ==> s[k] != c
    ensures First(s, c) == n
  {
    if n == 0 {
    } else {
      FirstIs(s[1..], c, n - 1);
    }
  }

  lemma {:induction false} NoneBeforeFirst(s: string, c: char)
    ensures forall k :: 0 <= k < First(s, c) ==> s[k] != c
  {
    if s != "" && s[0] != c {
      NoneBeforeFirst(s[1..], c);
      forall k | 0 < k < First(s, c) ensures s[k] != c {
        assert s[k] == s[1..][k - 1];
      }
    }
  }

  function Split(s: string, c: char): (ps: seq<string>)
    ensures |ps| >= 1
  {
    var i := First(s, c);
    if i == |s| then [s] else [s[..i]] + Split(s[i + 1..], c)
  }

  /** At most n pieces; the last one keeps the remaining separators. */
  function SplitN(s: string, c: char, n: nat): (ps: seq<string>)
    requires n >= 1
    ensures 1 <= |ps| <= n
  {
    var i := First(s, c);
    if n == 1 || i == |s| then [s] else [s[..i]] + SplitN(s[i + 1..], c, n - 1)
  }

  function Join(ps: seq<string>, c: char): string {
    if ps == [] then "" else if |ps| == 1 then ps[0] else ps[0] + [c] + Join(ps[1..], c)
  }

  predicate Free(s: string, c: char) {
    forall k :: 0 <= k < |s| ==> s[k] != c
  }

  predicate AllFree(ps: seq<string>, c: char) {
    ps == [] || (Free(ps[0], c) && AllFree(ps[1..], c))
  }

  lemma {:induction false} SplitIsFree(s: string, c: char)
    ensures AllFree(Split(s, c), c)
  {
    var i := First(s, c);
    NoneBeforeFirst(s, c);
    if i < |s| {
      SplitIsFree(s[i + 1..], c);
      assert Split(s, c)[1..] == Split(s[i + 1..], c);
    } else {
      assert Split(s, c)[1..] == [];
    }
  }

  lemma JoinCons(p: string, ps: seq<string>, c: char)
    requires ps != []
    ensures Join([p] + ps, c) == p + [c] + Join(ps, c)
  {
    assert ([p] + ps)[1..] == ps;
  }

  lemma JoinAt(s: string, i: nat, c: char, ps: seq<string>)
    requires i < |s| && s[i] == c && ps != [] && Join(ps, c) == s[i + 1..]
    ensures Join([s[..i]] + ps, c) == s
  {
    JoinCons(s[..i], ps, c);
  }

  lemma {:induction false} JoinOfSplit(s: string, c: char)
    ensures Join(Split(s, c), c) == s
  {
    var i := First(s, c);
    if i == |s| {
      assert Split(s, c) == [s];
    } else {
      JoinOfSplit(s[i + 1..], c);
      JoinAt(s, i, c, Split(s[i + 1..], c));
    }
  }

  lemma SplitAfter(p: string, c: char, rest: string)
    requires Free(p, c)
    ensures Split(p + [c] + rest, c) == [p] + Split(rest, c)
  {
    var s := p + [c] + rest;
    FirstIs(s, c, |p|);
    assert s[..|p|] == p && s[|p| + 1..] == rest;
  }

  lemma {:induction false} SplitOfJoin(ps: seq<string>, c: char)
    requires ps != [] && AllFree(ps, c)
    ensures Split(Join(ps, c), c) == ps
  {
    if |ps| == 1 {
      FirstIs(ps[0], c, |ps[0]|);
    } else {
      SplitOfJoin(ps[1..], c);
      SplitAfter(ps[0], c, Join(ps[1..], c));
    }
  }

  lemma FreeCons(p: string, ps: seq<string>, c: char)
    requires ps != [] && Free(p, c) && AllFree(ps[..|ps| - 1], c)
    ensures AllFree(([p] + ps)[..|[p] + ps| - 1], c)
  {
    var all := ([p] + ps)[..|[p] + ps| - 1];
    assert all[0] == p && all[1..] == ps[..|ps| - 1];
  }

  /**
   Splitting into at most n pieces loses nothing: joined they give the text back, all but the last
   are free of the separator, and so is the last unless there are n of them.
   */
  lemma {:induction false} JoinOfSplitN(s: string, c: char, n: nat)
    requires n >= 1
    ensures Join(SplitN(s, c, n), c) == s
    ensures |SplitN(s, c, n)| < n ==> Free(SplitN(s, c, n)[|SplitN(s, c, n)| - 1], c)
    ensures AllFree(SplitN(s, c, n)[..|SplitN(s, c, n)| - 1], c)
  {
    var i, ps := First(s, c), SplitN(s, c, n);
    NoneBeforeFirst(s, c);
    if n == 1 || i == |s| {
      assert ps == [s] && ps[..0] == [];
    } else {
      var rest := SplitN(s[i + 1..], c, n - 1);
      JoinOfSplitN(s[i + 1..], c, n - 1);
      JoinAt(s, i, c, rest);
      FreeCons(s[..i], rest, c);
      assert ps == [s[..i]] + rest;
    }
  }

  /** A text with a separator is split there in two. */
  lemma SplitInTwo(a: string, c: char, b: string)
    requires Free(a, c)
    ensures SplitN(a + [c] + b, c, 2) == [a, b]
  {
    var s := a + [c] + b;
    FirstIs(s, c, |a|);
    assert s[..|a|] == a && s[|a| + 1..] == b;
  }

  /** And one with two separators in three. */
  lemma SplitInThree(a: string, c: char, b: string, d: string)
    requires Free(a, c) && Free(b, c)
    ensures SplitN(a + [c] + (b + [c] + d), c, 3) == [a, b, d]
  {
    var s := a + [c] + (b + [c] + d);
    FirstIs(s, c, |a|);
    assert s[..|a|] == a && s[|a| + 1..] == b + [c] + d;
    SplitInTwo(b, c, d);
  }

  /** Without a separator it stays whole. */
  lemma SplitWhole(s: string, c: char, n: nat)
    requires n >= 1 && Free(s, c)
    ensures SplitN(s, c, n) == [s]
  {
    FirstIs(s, c, |s|);
  }

  // ----- White space -----

  predicate IsSpace(c: char) {
    '\t' <= c <= '\r' || c == ' '
  }

  function TrimLeft(s: string): (t: string)
    ensures |t| <= |s|
    ensures t != "" ==> !IsSpace(t[0])
  {
    if s != "" && IsSpace(s[0]) then TrimLeft(s[1..]) else s
  }

  function TrimRight(s: string): (t: string)
    ensures t <= s
    ensures t != "" ==> !IsSpace(t[|t| - 1])
  {
    if s != "" && IsSpace(s[|s| - 1]) then TrimRight(s[..|s| - 1]) else s
  }

  function TrimSpace(s: string): (t: string)
    ensures |t| <= |s| && Trimmed(t)
  {
    TrimRight(TrimLeft(s))
  }

  predicate AllSpace(s: string) {
    forall i :: 0 <= i < |s| ==> IsSpace(s[i])
  }

  lemma {:induction false} TrimLeftIs(s: string)
    ensures |TrimLeft(s)| <= |s| && s[|s| - |TrimLeft(s)|..] == TrimLeft(s) && AllSpace(s[..|s| - |TrimLeft(s)|])
  {
    if s == "" || !IsSpace(s[0]) {
    } else {
      TrimLeftIs(s[1..]);
      var n := |s| - |TrimLeft(s)|;
      assert s[1..][n - 1..] == s[n..];
      assert forall i :: 0 < i < n ==> s[i] == s[1..][..n - 1][i - 1];
    }
  }

  lemma {:induction false} TrimRightIs(s: string)
    ensures AllSpace(s[|TrimRight(s)|..])
  {
    if s == "" || !IsSpace(s[|s| - 1]) {
    } else {
      TrimRightIs(s[..|s| - 1]);
      var n := |TrimRight(s)|;
      assert forall i :: n <= i < |s| - 1 ==> s[i] == s[..|s| - 1][n..][i - n];
    }
  }

  /** The trimmed text is the inner part: what goes at both ends is white space, and none is left there. */
  lemma TrimmedIsInner(s: string) returns (before: string, after: string)
    ensures s == before + TrimSpace(s) + after && AllSpace(before) && AllSpace(after) && Trimmed(TrimSpace(s))
  {
    TrimLeftIs(s);
    var t := TrimLeft(s);
    TrimRightIs(t);
    before, after := s[..|s| - |t|], t[|TrimRight(t)|..];
    assert s == before + t && t == TrimRight(t) + after;
  }

  /** No white space at either end. */
  predicate Trimmed(s: string) {
    s == "" || (!IsSpace(s[0]) && !IsSpace(s[|s| - 1]))
  }

  lemma TrimmedStays(s: string)
    requires Trimmed(s)
    ensures TrimSpace(s) == s
  {}

  // ----- Case -----

  function Upper(c: char): char {
    if 'a' <= c <= 'z' then (c as int - 32) as char else c
  }

  function Lower(c: char): char {
    if 'A' <= c <= 'Z' then (c as int + 32) as char else c
  }

  /** Case changes letters only, and the two cases of a letter belong together in the order of the alphabet. */
  lemma Cases(c: char)
    ensures 'a' <= c <= 'z' <==> Upper(c) != c
    ensures 'A' <= c <= 'Z' <==> Lower(c) != c
    ensures 'a' <= c <= 'z' ==> Upper(c) as int - 'A' as int == c as int - 'a' as int && Lower(Upper(c)) == c
    ensures 'A' <= c <= 'Z' ==> Lower(c) as int - 'a' as int == c as int - 'A' as int && Upper(Lower(c)) == c
  {}

  function ToUpper(s: string): (t: string)
    ensures |t| == |s| && forall i :: 0 <= i < |s| ==> t[i] == Upper(s[i])
  {
    seq(|s|, i requires 0 <= i < |s| => Upper(s[i]))
  }

  function ToLower(s: string): (t: string)
    ensures |t| == |s| && forall i :: 0 <= i < |s| ==> t[i] == Lower(s[i])
  {
    seq(|s|, i requires 0 <= i < |s| => Lower(s[i]))
  }

  lemma UpperForgetsCase(s: string)
    ensures ToUpper(ToLower(s)) == ToUpper(s)
    ensures ToUpper(ToUpper(s)) == ToUpper(s)
  {}

  lemma UpperStaysTrimmed(s: string)
    requires Trimmed(s)
    ensures Trimmed(ToUpper(s))
  {}

  function ReplaceAll(s: string, c: char, d: char): (t: string)
    ensures |t| == |s| && (c != d ==> c !in t)
    ensures forall i :: 0 <= i < |s| ==> (s[i] != c ==> t[i] == s[i]) && (s[i] == c ==> t[i] == d)
  {
    seq(|s|, i requires 0 <= i < |s| => if s[i] == c then d else s[i])
  }

  predicate HasPrefix(s: string, p: string) {
    p <= s
  }

  predicate HasSuffix(s: string, p: string) {
    |p| <= |s| && s[|s| - |p|..] == p
  }

  /** A prefix is what a text starts with, a suffix what it ends with. */
  lemma Affixes(a: string, b: string, s: string)
    ensures HasPrefix(a + b, a) && HasSuffix(a + b, b)
    ensures HasPrefix(s, a) ==> exists rest :: s == a + rest
    ensures HasSuffix(s, b) ==> exists rest :: s == rest + b
  {
    if HasPrefix(s, a) {
      assert s == a + s[|a|..];
    }
    if HasSuffix(s, b) {
      assert s == s[..|s| - |b|] + b;
    }
  }
}
