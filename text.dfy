/**
 * The Python `str` operations the core relies on, over `seq<char>`:
 * whitespace as `str.isspace` sees it, `strip`, whitespace `split`,
 * `join`, ASCII case mapping, `ljust`, `str(int)`, and the code-point
 * lexicographic order `sorted` uses, with a stable insertion sort by key.
 */
module Text {

  /** `str.isspace()` for one character (the characters Python's `strip`, `split` and `\s` treat as whitespace). */
  predicate IsSpace(c: char) {
    || ('\U{0009}' <= c <= '\U{000D}')
    || ('\U{001C}' <= c <= '\U{0020}')
    || c == '\U{0085}' || c == '\U{00A0}' || c == '\U{1680}'
    || ('\U{2000}' <= c <= '\U{200A}')
    || c == '\U{2028}' || c == '\U{2029}' || c == '\U{202F}' || c == '\U{205F}' || c == '\U{3000}'
  }

  predicate NoSpace(s: string) {
    forall i :: 0 <= i < |s| ==> !IsSpace(s[i])
  }

  predicate IsPrefix(p: string, s: string) {
    |p| <= |s| && s[..|p|] == p
  }

  predicate IsSuffix(p: string, s: string) {
    |p| <= |s| && s[|s| - |p|..] == p
  }

  /** `t in s` for strings: `t` occurs somewhere in `s`. */
  predicate Contains(s: string, t: string) {
    exists i :: 0 <= i <= |s| - |t| && IsPrefix(t, s[i..])
  }

  /** `s.count(c)` for a one-character needle. */
  function Count(s: string, c: char): (n: nat)
    ensures n <= |s|
    ensures n == 0 <==> (forall i :: 0 <= i < |s| ==> s[i] != c)
  {
    if s == [] then 0 else (if s[0] == c then 1 else 0) + Count(s[1..], c)
  }

  function LowerChar(c: char): char {
    if 'A' <= c <= 'Z' then c - 'A' + 'a' else c
  }

  function UpperChar(c: char): char {
    if 'a' <= c <= 'z' then c - 'a' + 'A' else c
  }

  /** `s.lower()` restricted to ASCII letters. */
  function Lower(s: string): (r: string)
    ensures |r| == |s|
    ensures forall i :: 0 <= i < |s| ==> r[i] == LowerChar(s[i])
  {
    seq(|s|, i requires 0 <= i < |s| => LowerChar(s[i]))
  }

  /** `s.upper()` restricted to ASCII letters. */
  function Upper(s: string): (r: string)
    ensures |r| == |s|
    ensures forall i :: 0 <= i < |s| ==> r[i] == UpperChar(s[i])
  {
    seq(|s|, i requires 0 <= i < |s| => UpperChar(s[i]))
  }

  /** Upper-casing leaves no lower-case ASCII letter and loses nothing that `lower` sees. */
  lemma UpperThenLower(s: string)
    ensures forall i :: 0 <= i < |s| ==> !('a' <= Upper(s)[i] <= 'z')
    ensures Lower(Upper(s)) == Lower(s)
  {
  }

  /** `s.replace(a, b)` for single characters. */
  function ReplaceChar(s: string, a: char, b: char): (r: string)
    ensures |r| == |s|
    ensures forall i :: 0 <= i < |s| ==> r[i] == (if s[i] == a then b else s[i])
  {
    seq(|s|, i requires 0 <= i < |s| => if s[i] == a then b else s[i])
  }

  /** `s.lstrip()`: drops the leading whitespace run and nothing else. */
  function TrimStart(s: string): (r: string)
    ensures |r| <= |s| && r == s[|s| - |r|..]
    ensures r == [] || !IsSpace(r[0])
    ensures forall i :: 0 <= i < |s| - |r| ==> IsSpace(s[i])
  {
    if s != [] && IsSpace(s[0]) then
      var r := TrimStart(s[1..]);
      TailSlice(s, |s| - 1 - |r|);
      r
    else s
  }

  /** Whitespace throughout (`s.isspace()`, except that the empty text also counts). */
  predicate Blank(s: string) {
    forall i :: 0 <= i < |s| ==> IsSpace(s[i])
  }

  /** `lstrip` sees through whitespace put in front. */
  lemma {:induction false} TrimStartBlankFront(ws: string, rest: string)
    requires Blank(ws)
    ensures TrimStart(ws + rest) == TrimStart(rest)
    decreases |ws|
  {
    if ws != [] {
      ConsSplit(ws, rest);
      TrimStartBlankFront(ws[1..], rest);
    } else {
      AppendNil(rest);
    }
  }

  /** `s.rstrip()`: drops the trailing whitespace run and nothing else. */
  function TrimEnd(s: string): (r: string)
    ensures |r| <= |s| && r == s[..|r|]
    ensures r == [] || !IsSpace(r[|r| - 1])
    ensures forall i :: |r| <= i < |s| ==> IsSpace(s[i])
  {
    if s != [] && IsSpace(s[|s| - 1]) then TrimEnd(s[..|s| - 1]) else s
  }

  /** `s.strip()`. */
  function Strip(s: string): (r: string)
    ensures r == [] || (!IsSpace(r[0]) && !IsSpace(r[|r| - 1]))
  {
    TrimEnd(TrimStart(s))
  }

  /** What `strip` keeps is a piece of the original. */
  lemma StripWithin(s: string)
    ensures Contains(s, Strip(s))
  {
    var t := TrimStart(s);
    assert IsPrefix(Strip(s), s[|s| - |t|..]);
  }

  /** `strip` leaves nothing exactly when the text is all whitespace. */
  lemma StripEmptyIffBlank(s: string)
    ensures Strip(s) == [] <==> forall i :: 0 <= i < |s| ==> IsSpace(s[i])
  {
    if Strip(s) == [] {
      assert TrimStart(s) == [];
    } else {
      StripWithin(s);
      var j :| 0 <= j <= |s| - |Strip(s)| && IsPrefix(Strip(s), s[j..]);
      assert s[j] == Strip(s)[0];
    }
  }

  /** The maximal prefix of `s` without whitespace. */
  function Word(s: string): (w: string)
    ensures |w| <= |s| && w == s[..|w|] && NoSpace(w)
    ensures |w| == |s| || IsSpace(s[|w|])
    ensures s != [] && !IsSpace(s[0]) ==> w != []
  {
    if s == [] || IsSpace(s[0]) then [] else [s[0]] + Word(s[1..])
  }

  /** A token of `str.split()`: non-empty, without whitespace. */
  predicate IsToken(w: string) {
    w != [] && NoSpace(w)
  }

  /** `s.split()` with no separator: the maximal non-whitespace runs, in order. */
  function Split(s: string): seq<string>
    decreases |s|
  {
    var t := TrimStart(s);
    if t == [] then [] else
      var w := Word(t);
      assert w != [];
      [w] + Split(t[|w|..])
  }

  /** Every part `split` yields is a non-empty run without whitespace. */
  lemma {:induction false} SplitTokens(s: string)
    ensures forall k :: 0 <= k < |Split(s)| ==> IsToken(Split(s)[k])
    decreases |s|
  {
    var t := TrimStart(s);
    if t != [] {
      var w := Word(t);
      SplitTokens(t[|w|..]);
      TokensCons(w, Split(t[|w|..]));
    }
  }

  /** A token in front of a list of tokens keeps it a list of tokens. */
  lemma TokensCons(w: string, tail: seq<string>)
    requires IsToken(w) && forall k :: 0 <= k < |tail| ==> IsToken(tail[k])
    ensures forall k :: 0 <= k < |[w] + tail| ==> IsToken(([w] + tail)[k])
  {
    ConsIndex(w, tail);
  }

  /** `sep.join(parts)`. */
  function Join(sep: string, parts: seq<string>): (r: string)
    ensures parts == [] ==> r == []
    ensures |parts| == 1 ==> r == parts[0]
  {
    if parts == [] then []
    else if |parts| == 1 then parts[0]
    else parts[0] + sep + Join(sep, parts[1..])
  }

  /** An occurrence inside `s` is still one after text is added around `s`. */
  lemma ContainsWithin(a: string, s: string, b: string, t: string)
    requires Contains(s, t)
    ensures Contains(a + s + b, t)
  {
    var i :| 0 <= i <= |s| - |t| && IsPrefix(t, s[i..]);
    var w := a + s + b;
    assert w[|a| + i..][..|t|] == s[i..][..|t|];
    assert IsPrefix(t, w[|a| + i..]);
  }

  /** Every part of a join occurs in the joined text. */
  lemma {:induction false} JoinContains(sep: string, parts: seq<string>, i: nat)
    requires i < |parts|
    ensures Contains(Join(sep, parts), parts[i])
  {
    var r := Join(sep, parts);
    if |parts| == 1 {
      assert IsPrefix(parts[0], r[0..]);
    } else if i == 0 {
      assert r == parts[0] + (sep + Join(sep, parts[1..]));
      assert IsPrefix(parts[0], r[0..]);
    } else {
      var tail := Join(sep, parts[1..]);
      JoinContains(sep, parts[1..], i - 1);
      var j :| 0 <= j <= |tail| - |parts[i]| && IsPrefix(parts[i], tail[j..]);
      var off := |parts[0]| + |sep|;
      assert r == (parts[0] + sep) + tail;
      assert r[off + j..] == tail[j..];
      assert IsPrefix(parts[i], r[off + j..]);
    }
  }

  function Sum(ws: seq<nat>): nat {
    if ws == [] then 0 else ws[0] + Sum(ws[1..])
  }

  /** The length of a join: the parts' lengths plus one separator between each two. */
  lemma {:induction false} JoinLength(sep: string, parts: seq<string>, ws: seq<nat>)
    requires |parts| == |ws| >= 1
    requires forall j :: 0 <= j < |parts| ==> |parts[j]| == ws[j]
    ensures |Join(sep, parts)| == Sum(ws) + |sep| * (|ws| - 1)
  {
    if |parts| > 1 {
      JoinLength(sep, parts[1..], ws[1..]);
    }
  }

  /** Joining a part in front of others puts one separator after it. */
  lemma JoinCons(sep: string, a: string, rest: seq<string>)
    requires rest != []
    ensures Join(sep, [a] + rest) == a + sep + Join(sep, rest)
  {
    assert ([a] + rest)[1..] == rest;
  }

  /** A join starts with its first part and ends with its last. */
  lemma {:induction false} JoinEnds(sep: string, parts: seq<string>)
    requires parts != []
    ensures IsPrefix(parts[0], Join(sep, parts))
    ensures IsSuffix(parts[|parts| - 1], Join(sep, parts))
  {
    if |parts| > 1 {
      JoinEnds(sep, parts[1..]);
      var r := Join(sep, parts);
      var tail := Join(sep, parts[1..]);
      assert r == parts[0] + sep + tail;
      assert r[..|parts[0]|] == parts[0];
      assert r[|r| - |tail|..] == tail;
    }
  }

  /** The line before the first '\n' (`s.split('\n')[0]`). */
  function FirstLine(s: string): string {
    if s == [] || s[0] == '\n' then [] else [s[0]] + FirstLine(s[1..])
  }

  /** The first line is the longest prefix without a newline. */
  lemma {:induction false} FirstLineSpec(s: string)
    ensures IsPrefix(FirstLine(s), s)
    ensures forall i :: 0 <= i < |FirstLine(s)| ==> FirstLine(s)[i] != '\n'
    ensures |FirstLine(s)| == |s| || s[|FirstLine(s)|] == '\n'
  {
    if s != [] && s[0] != '\n' {
      FirstLineSpec(s[1..]);
    }
  }

  function Spaces(n: nat): (r: string)
    ensures |r| == n && forall i :: 0 <= i < n ==> r[i] == ' '
  {
    seq(n, _ => ' ')
  }

  function Dashes(n: nat): (r: string)
    ensures |r| == n && forall i :: 0 <= i < n ==> r[i] == '-'
  {
    seq(n, _ => '-')
  }

  /** `s.ljust(w)`: pads on the right with spaces up to width `w`, never truncates. */
  function LJust(s: string, w: nat): (r: string)
    ensures |r| == if |s| < w then w else |s|
    ensures r[..|s|] == s
    ensures forall i :: |s| <= i < |r| ==> r[i] == ' '
  {
    if |s| < w then s + Spaces(w - |s|) else s
  }

  function DigitChar(d: nat): char
    requires d < 10
  {
    "0123456789"[d]
  }

  predicate IsDigit(c: char) {
    '0' <= c <= '9'
  }

  /** `str(n)` for a natural number. */
  function NatToString(n: nat): (r: string)
    ensures r != [] && forall i :: 0 <= i < |r| ==> IsDigit(r[i])
    ensures |r| > 1 ==> r[0] != '0'
  {
    if n < 10 then [DigitChar(n)] else NatToString(n / 10) + [DigitChar(n % 10)]
  }

  /** `str(i)` for an integer. */
  function IntToString(i: int): (r: string)
    ensures r != []
    ensures i < 0 <==> r[0] == '-'
  {
    if i < 0 then "-" + NatToString(-i) else NatToString(i)
  }

  // ---------------------------------------------------------------------
  // Ordering of strings by code point, as Python's `<` on `str` does.

  predicate StrLess(a: string, b: string) {
    if a == [] then b != []
    else b != [] && (a[0] < b[0] || (a[0] == b[0] && StrLess(a[1..], b[1..])))
  }

  lemma {:induction false} StrLessIrreflexive(a: string)
    ensures !StrLess(a, a)
  {
    if a != [] { StrLessIrreflexive(a[1..]); }
  }

  lemma {:induction false} StrLessTransitive(a: string, b: string, c: string)
    requires StrLess(a, b) && StrLess(b, c)
    ensures StrLess(a, c)
  {
    if a != [] && a[0] == b[0] && b[0] == c[0] {
      StrLessTransitive(a[1..], b[1..], c[1..]);
    }
  }

  lemma {:induction false} StrLessTotal(a: string, b: string)
    ensures a == b || StrLess(a, b) || StrLess(b, a)
  {
    if a != [] && b != [] && a[0] == b[0] {
      StrLessTotal(a[1..], b[1..]);
      if a[1..] == b[1..] {
        assert a == [a[0]] + a[1..] && b == [b[0]] + b[1..];
      }
    }
  }

  lemma StrLessAsymmetric(a: string, b: string)
    requires StrLess(a, b)
    ensures !StrLess(b, a)
  {
    if StrLess(b, a) {
      StrLessTransitive(a, b, a);
      StrLessIrreflexive(a);
    }
  }

  /** Non-strict order: `a <= b`. */
  predicate StrLeq(a: string, b: string) {
    !StrLess(b, a)
  }

  lemma StrLeqTransitive(a: string, b: string, c: string)
    requires StrLeq(a, b) && StrLeq(b, c)
    ensures StrLeq(a, c)
  {
    if StrLess(c, a) {
      StrLessTotal(a, b);
      if a == b {
      } else if StrLess(a, b) {
        StrLessTransitive(c, a, b);
      }
    }
  }

  lemma StrLeqAntisymmetric(a: string, b: string)
    requires StrLeq(a, b) && StrLeq(b, a)
    ensures a == b
  {
    StrLessTotal(a, b);
  }

  // ---------------------------------------------------------------------
  // Stable sort of (key, value) pairs by key.

  predicate SortedByKey<V>(s: seq<(string, V)>) {
    forall i, j :: 0 <= i < j < |s| ==> StrLeq(s[i].0, s[j].0)
  }

  /** Inserts `x` before the first element whose key is not smaller (so earlier equal keys stay first). */
  function InsertByKey<V>(x: (string, V), s: seq<(string, V)>): (r: seq<(string, V)>)
    requires SortedByKey(s)
    ensures SortedByKey(r)
    ensures multiset(r) == multiset(s) + multiset{x}
    ensures |r| == |s| + 1
  {
    if s == [] then [x]
    else if !StrLess(s[0].0, x.0) then
      assert forall j :: 0 <= j < |s| ==> StrLeq(x.0, s[j].0) by {
        forall j | 0 <= j < |s| ensures StrLeq(x.0, s[j].0) {
          if j > 0 { StrLeqTransitive(x.0, s[0].0, s[j].0); }
        }
      }
      [x] + s
    else
      var t := InsertByKey(x, s[1..]);
      MultisetHead(s);
      HeadBelowInserted(x, s, t);
      ConsIndex(s[0], t);
      [s[0]] + t
  }

  /** The head of a sorted sequence stays below everything after it once a larger key is inserted there. */
  lemma HeadBelowInserted<V>(x: (string, V), s: seq<(string, V)>, t: seq<(string, V)>)
    requires SortedByKey(s) && s != [] && StrLess(s[0].0, x.0)
    requires multiset(t) == multiset(s[1..]) + multiset{x}
    ensures forall j :: 0 <= j < |t| ==> StrLeq(s[0].0, t[j].0)
  {
    forall j | 0 <= j < |t| ensures StrLeq(s[0].0, t[j].0) {
      assert t[j] in multiset(t);
      if t[j] == x {
        StrLessAsymmetric(s[0].0, x.0);
      } else {
        assert t[j] in multiset(s[1..]);
        var k :| 0 <= k < |s[1..]| && s[1..][k] == t[j];
        assert s[k + 1] == t[j];
      }
    }
  }

  /** `sorted(items, key=lambda kv: kv[0])`: sorted by key, a permutation, stable. */
  function SortByKey<V>(s: seq<(string, V)>): (r: seq<(string, V)>)
    ensures SortedByKey(r)
    ensures multiset(r) == multiset(s)
    ensures |r| == |s|
  {
    if s == [] then [] else
      assert s == [s[0]] + s[1..];
      InsertByKey(s[0], SortByKey(s[1..]))
  }

  predicate DistinctKeys<V>(s: seq<(string, V)>) {
    forall i, j :: 0 <= i < j < |s| ==> s[i].0 != s[j].0
  }

  /** With no key twice, each pair occurs exactly once. */
  lemma OccursOnce<V>(a: seq<(string, V)>, p: nat)
    requires DistinctKeys(a) && p < |a|
    ensures multiset(a)[a[p]] == 1
  {
    var x := a[p];
    assert a == a[..p] + [x] + a[p + 1..];
    forall q | 0 <= q < p ensures a[..p][q] != x {
      assert a[q].0 != a[p].0;
    }
    var rest := a[p + 1..];
    forall q | 0 <= q < |rest| ensures rest[q] != x {
      assert a[p + 1 + q].0 != a[p].0;
    }
    assert x !in a[..p] && x !in rest;
    assert multiset(a) == multiset(a[..p]) + multiset{x} + multiset(a[p + 1..]);
  }

  /** A pair at two positions occurs at least twice. */
  lemma OccursTwice<V>(b: seq<(string, V)>, i: nat, j: nat)
    requires i < j < |b| && b[i] == b[j]
    ensures multiset(b)[b[i]] >= 2
  {
    assert b == b[..j] + [b[j]] + b[j + 1..];
    assert b[..j][i] == b[i];
    assert multiset(b) == multiset(b[..j]) + multiset{b[j]} + multiset(b[j + 1..]);
  }

  /** Reordering the pairs keeps the keys distinct. */
  lemma DistinctKeysPermutation<V>(a: seq<(string, V)>, b: seq<(string, V)>)
    requires DistinctKeys(a) && multiset(a) == multiset(b)
    ensures DistinctKeys(b)
  {
    forall i, j | 0 <= i < j < |b| ensures b[i].0 != b[j].0 {
      assert b[i] in multiset(a) && b[j] in multiset(a);
      var p :| 0 <= p < |a| && a[p] == b[i];
      var q :| 0 <= q < |a| && a[q] == b[j];
      if p == q {
        OccursTwice(b, i, j);
        OccursOnce(a, p);
      }
    }
  }

  /** Two key-sorted sequences holding the same pairs, with no key twice, start with the same pair. */
  lemma SortedSameHead<V>(a: seq<(string, V)>, b: seq<(string, V)>)
    requires SortedByKey(a) && SortedByKey(b) && DistinctKeys(a)
    requires multiset(a) == multiset(b) && a != []
    ensures b != [] && a[0] == b[0]
  {
    assert a[0] in multiset(b);
    var j :| 0 <= j < |b| && b[j] == a[0];
    assert b[0] in multiset(a);
    var i :| 0 <= i < |a| && a[i] == b[0];
    StrLessIrreflexive(a[0].0);
    StrLessIrreflexive(b[0].0);
    assert StrLeq(a[0].0, a[i].0);
    assert StrLeq(b[0].0, b[j].0);
    StrLeqAntisymmetric(a[0].0, b[0].0);
  }

  /** Two key-sorted sequences holding the same pairs, with no key twice, are the same sequence. */
  lemma {:induction false} SortedUnique<V>(a: seq<(string, V)>, b: seq<(string, V)>)
    requires SortedByKey(a) && SortedByKey(b) && DistinctKeys(a)
    requires multiset(a) == multiset(b)
    ensures a == b
  {
    if a == [] {
      assert |b| == |multiset(b)| == 0;
    } else {
      SortedSameHead(a, b);
      MultisetHead(a);
      MultisetHead(b);
      MultisetCancel(a[0], multiset(a[1..]), multiset(b[1..]));
      SortedUnique(a[1..], b[1..]);
    }
  }

  /** A prefix grows by the next element. */
  lemma PrefixStep<T>(front: seq<T>, all: seq<T>, n: nat, x: T)
    requires n < |all| && front == all[..n] && x == all[n]
    ensures front + [x] == all[..n + 1]
  {
    assert all[..n + 1] == all[..n] + [all[n]];
  }

  /** The elements behind the head of `[x] + tail` are those of `tail`. */
  lemma ConsIndex<T>(x: T, tail: seq<T>)
    ensures forall k :: 1 <= k < |[x] + tail| ==> ([x] + tail)[k] == tail[k - 1]
  {
  }

  /** The empty sequence is a unit of concatenation. */
  lemma AppendNil<T>(s: seq<T>)
    ensures s + [] == s && [] + s == s
  {
  }

  /** `a + b + (b + c)` regrouped around the doubled `b`. */
  lemma Regroup<T>(a: seq<T>, b: seq<T>, c: seq<T>)
    ensures a + b + (b + c) == a + (b + b) + c
  {
  }

  /** The head and the tail of a concatenation with a non-empty front. */
  lemma ConsSplit<T>(a: seq<T>, b: seq<T>)
    requires a != []
    ensures (a + b)[0] == a[0] && (a + b)[1..] == a[1..] + b && a == [a[0]] + a[1..]
  {
  }

  /** A non-empty sequence is its head and its tail. */
  lemma MultisetHead<T>(s: seq<T>)
    requires s != []
    ensures s == [s[0]] + s[1..] && multiset(s) == multiset{s[0]} + multiset(s[1..])
  {
    assert s == [s[0]] + s[1..];
  }

  /** Taking the element at `j` out of a sequence takes it out of its multiset. */
  lemma MultisetRemove<T>(s: seq<T>, j: nat)
    requires j < |s|
    ensures multiset(s) == multiset{s[j]} + multiset(s[..j] + s[j + 1..])
  {
    assert s == s[..j] + [s[j]] + s[j + 1..];
  }

  /** Equal multisets stay equal with the same element taken from both. */
  lemma MultisetCancel<T>(x: T, m1: multiset<T>, m2: multiset<T>)
    requires multiset{x} + m1 == multiset{x} + m2
    ensures m1 == m2
  {
    assert forall e :: m1[e] == (multiset{x} + m1)[e] - multiset{x}[e];
    assert forall e :: m2[e] == (multiset{x} + m2)[e] - multiset{x}[e];
  }

  /** Slicing the tail of `s` from `k` is slicing `s` from `k + 1`; the tail holds `s` shifted by one. */
  lemma TailSlice<T>(s: seq<T>, k: nat)
    requires s != [] && k <= |s| - 1
    ensures s[1..][k..] == s[k + 1..]
    ensures forall i :: 1 <= i < |s| ==> s[i] == s[1..][i - 1]
  {
  }

  /** The front of `s`, all but its last element, holds `s` unshifted. */
  lemma FrontIndex<T>(s: seq<T>)
    requires s != []
    ensures forall i :: 0 <= i < |s| - 1 ==> s[..|s| - 1][i] == s[i]
  {
  }

  /** A sequence of two or more is its front and its last element, and so is its tail. */
  lemma SplitLast<T>(s: seq<T>)
    requires |s| >= 2
    ensures s == s[..|s| - 1] + [s[|s| - 1]]
    ensures s[1..] == s[..|s| - 1][1..] + [s[|s| - 1]]
  {
  }

  /** The two parts of a concatenation can be sliced back out of it. */
  lemma AppendSlices<T>(a: seq<T>, b: seq<T>)
    ensures (a + b)[..|a|] == a && (a + b)[|a|..] == b
  {
  }

  /** A sequence is its three slices around two cut points. */
  lemma ThreeSlices<T>(s: seq<T>, i: nat, j: nat)
    requires i <= j <= |s|
    ensures s == s[..i] + s[i..j] + s[j..]
  {
  }

  /** Slicing all of a sequence gives it back. */
  lemma WholeSlice<T>(s: seq<T>)
    ensures s[..|s|] == s
  {
  }

  /** `a + b + c + d + e` grouped as `a + b + (c + d + e)`. */
  lemma Regroup5<T>(a: seq<T>, b: seq<T>, c: seq<T>, d: seq<T>, e: seq<T>)
    ensures a + b + c + d + e == a + b + (c + d + e)
  {
  }

  /** Text put around a join keeps the join's first part right after it and its last part right before it. */
  lemma Framed(a: string, j: string, b: string, p: string, q: string)
    requires IsPrefix(p, j) && IsSuffix(q, j)
    ensures IsPrefix(a + p, a + j + b) && IsSuffix(q + b, a + j + b)
  {
    var s := a + j + b;
    assert s[..|a| + |p|] == a + p;
    assert s[|s| - |q + b|..] == q + b;
  }

  /** A suffix of two or more characters fixes the last-but-one character. */
  lemma SecondLast(p: string, r: string)
    ensures IsSuffix(p, r) && |p| >= 2 ==> r[|r| - 2] == p[|p| - 2]
  {
    if IsSuffix(p, r) && |p| >= 2 {
      assert r[|r| - |p|..][|p| - 2] == r[|r| - 2];
    }
  }

  /** A suffix of a suffix is a suffix. */
  lemma SuffixTrans(p: string, q: string, r: string)
    requires IsSuffix(p, q) && IsSuffix(q, r)
    ensures IsSuffix(p, r)
  {
    assert r[|r| - |p|..] == r[|r| - |q|..][|q| - |p|..];
  }

  /** `lstrip` keeps text that does not start with whitespace. */
  lemma TrimStartKeeps(s: string)
    requires s == [] || !IsSpace(s[0])
    ensures TrimStart(s) == s
  {
  }

  /** Concatenation is associative. */
  lemma AppendAssoc<T>(a: seq<T>, b: seq<T>, c: seq<T>)
    ensures (a + b) + c == a + (b + c)
  {
  }
}
