/**
  The handful of Python `str` operations the parsers use, written out over `seq<char>`:
  `isspace`, `strip`, `startswith`, `in`, `split(sep)`, `sep.join`, `replace` and the
  whitespace-splitting `split()`.
 */
module Strings {
  import opened Wrappers

  /** Python's `str.isspace()` on one character: what `strip()` removes and `split()` splits on. */
  predicate IsSpace(c: char) {
    var n := c as int;
    (9 <= n <= 13) || (28 <= n <= 32) || n == 0x85 || n == 0xA0 || n == 0x1680
    || (0x2000 <= n <= 0x200A) || n == 0x2028 || n == 0x2029 || n == 0x202F
    || n == 0x205F || n == 0x3000
  }

  /** `not s.strip()` in Python: the string is empty or all whitespace. */
  predicate IsBlank(s: string) {
    forall i :: 0 <= i < |s| ==> IsSpace(s[i])
  }

  predicate NoSpace(s: string) {
    forall i :: 0 <= i < |s| ==> !IsSpace(s[i])
  }

  /** Python's `s.lstrip()`: the suffix left after dropping leading whitespace. */
  function TrimStart(s: string): (r: string)
    ensures |r| <= |s| && r == s[|s| - |r|..]
    ensures r == [] || !IsSpace(r[0])
    ensures forall i :: 0 <= i < |s| - |r| ==> IsSpace(s[i])
    ensures r == [] <==> IsBlank(s)
  {
    if s != [] && IsSpace(s[0]) then TrimStart(s[1..]) else s
  }

  /** Python's `s.rstrip()`: the prefix left after dropping trailing whitespace. */
  function TrimEnd(s: string): (r: string)
    ensures |r| <= |s| && r == s[..|r|]
    ensures r == [] || !IsSpace(r[|r| - 1])
    ensures forall i :: |r| <= i < |s| ==> IsSpace(s[i])
    ensures r == [] <==> IsBlank(s)
  {
    if s != [] && IsSpace(s[|s| - 1]) then TrimEnd(s[..|s| - 1]) else s
  }

  /** `r` is the part of `s` from index `i` on that has only whitespace around it in `s`. */
  predicate InfixBetweenSpace(s: string, i: int, r: string) {
    && 0 <= i <= |s| - |r|
    && r == s[i..i + |r|]
    && (forall k :: 0 <= k < i ==> IsSpace(s[k]))
    && (forall k :: i + |r| <= k < |s| ==> IsSpace(s[k]))
  }

  /** Python's `s.strip()`; it is empty exactly when `s` is blank. */
  function Strip(s: string): (r: string)
    ensures r == [] || (!IsSpace(r[0]) && !IsSpace(r[|r| - 1]))
    ensures r == [] <==> IsBlank(s)
  {
    TrimEnd(TrimStart(s))
  }

  /** `strip()` keeps the part of `s` between its leading and its trailing whitespace. */
  lemma StripIsInfix(s: string)
    ensures exists i :: InfixBetweenSpace(s, i, Strip(s))
  {
    TrimmedInfix(s);
    assert InfixBetweenSpace(s, |s| - |TrimStart(s)|, Strip(s));
  }

  /**
    The part of `s` with only whitespace around it and no whitespace at either end is `strip(s)`:
    `strip()` has no other possible answer.
   */
  lemma StripUnique(s: string, i: nat, r: string)
    requires InfixBetweenSpace(s, i, r)
    requires r == [] || (!IsSpace(r[0]) && !IsSpace(r[|r| - 1]))
    requires r != [] || IsBlank(s)
    ensures Strip(s) == r
  {
    if r != [] {
      TrimmedInfix(s);
      InfixUnique(s, i, r, |s| - |TrimStart(s)|, Strip(s));
    }
  }

  /** Two non-empty infixes that both have only whitespace around them and none at their ends are equal. */
  lemma InfixUnique(s: string, i: nat, r: string, j: nat, t: string)
    requires InfixBetweenSpace(s, i, r) && InfixBetweenSpace(s, j, t)
    requires r != [] && !IsSpace(r[0]) && !IsSpace(r[|r| - 1])
    requires t != [] && !IsSpace(t[0]) && !IsSpace(t[|t| - 1])
    ensures r == t
  {
    assert s[i] == r[0] && s[i + |r| - 1] == r[|r| - 1];
    assert s[j] == t[0] && s[j + |t| - 1] == t[|t| - 1];
    assert !(i < j) && !(j < i);
    var e, f := i + |r| - 1, j + |t| - 1;
    assert !(e < f) && !(f < e);
  }

  /** Trimming both ends leaves an infix with only whitespace around it. */
  lemma {:induction false} TrimmedInfix(s: string)
    ensures InfixBetweenSpace(s, |s| - |TrimStart(s)|, TrimEnd(TrimStart(s)))
  {
    var t := TrimStart(s);
    var r := TrimEnd(t);
    assert |t| <= |s| && t == s[|s| - |t|..];
    assert |r| <= |t| && r == t[..|r|];
    SuffixInfix(s, t, r);
  }

  /** A prefix `r` of a suffix `t` of `s` sits in `s` where `t` starts; what follows `r` in `t` follows it in `s`. */
  lemma {:induction false} SuffixInfix(s: string, t: string, r: string)
    requires |t| <= |s| && t == s[|s| - |t|..] && |r| <= |t| && r == t[..|r|]
    requires forall k :: 0 <= k < |s| - |t| ==> IsSpace(s[k])
    requires forall k :: |r| <= k < |t| ==> IsSpace(t[k])
    ensures InfixBetweenSpace(s, |s| - |t|, r)
  {
    var i := |s| - |t|;
    assert s[i..][..|r|] == s[i..i + |r|];
    forall k | i + |r| <= k < |s| ensures IsSpace(s[k]) {
      assert s[k] == t[k - i];
    }
  }

  /** A string that neither starts nor ends with whitespace is its own `strip()`. */
  lemma StripNoEdgeSpace(s: string)
    requires s != [] && !IsSpace(s[0]) && !IsSpace(s[|s| - 1])
    ensures Strip(s) == s
  {
    assert TrimStart(s) == s;
  }

  /** `lstrip()` removes exactly the leading blanks before a string that does not start with whitespace. */
  lemma {:induction false} TrimStartAfterBlanks(blanks: string, t: string)
    requires IsBlank(blanks)
    requires t == [] || !IsSpace(t[0])
    ensures TrimStart(blanks + t) == t
    decreases |blanks|
  {
    if blanks == [] {
      assert blanks + t == t;
    } else {
      assert (blanks + t)[0] == blanks[0];
      assert (blanks + t)[1..] == blanks[1..] + t;
      TrimStartAfterBlanks(blanks[1..], t);
    }
  }

  /** Leading blanks before a string without edge whitespace are exactly what `strip()` removes. */
  lemma StripAfterBlanks(blanks: string, t: string)
    requires IsBlank(blanks)
    requires t != [] && !IsSpace(t[0]) && !IsSpace(t[|t| - 1])
    ensures Strip(blanks + t) == t
  {
    TrimStartAfterBlanks(blanks, t);
    assert TrimEnd(t) == t;
  }

  /** Python's `s.startswith(p)`. */
  predicate StartsWith(s: string, p: string) {
    |p| <= |s| && s[..|p|] == p
  }

  /** `p` occurs in `s` at index `i`. */
  predicate OccursAt(s: string, i: int, p: string) {
    0 <= i && i + |p| <= |s| && s[i..i + |p|] == p
  }

  /** Python's `s.find(p)` as an option: the first index at which `p` occurs in `s`. */
  function Find(s: string, p: string): (r: Option<nat>)
    ensures r.Some? ==> OccursAt(s, r.value, p)
    ensures r.Some? ==> forall j :: 0 <= j < r.value ==> !OccursAt(s, j, p)
    ensures r.None? <==> forall j :: 0 <= j <= |s| ==> !OccursAt(s, j, p)
  {
    if StartsWith(s, p) then
      Some(0)
    else if s == [] then
      None
    else
      match Find(s[1..], p)
      case None =>
        assert forall j :: 1 <= j <= |s| ==> (OccursAt(s, j, p) <==> OccursAt(s[1..], j - 1, p));
        None
      case Some(k) =>
        assert forall j :: 1 <= j <= |s| ==> (OccursAt(s, j, p) <==> OccursAt(s[1..], j - 1, p));
        Some(k + 1)
  }

  /** The character `c` does not occur in `s`. */
  predicate Lacks(s: string, c: char) {
    forall i :: 0 <= i < |s| ==> s[i] != c
  }

  lemma LacksConcat(a: string, b: string, c: char)
    requires Lacks(a, c) && Lacks(b, c)
    ensures Lacks(a + b, c)
  {
    assert forall i :: |a| <= i < |a + b| ==> (a + b)[i] == b[i - |a|];
  }

  /** A string that does not contain the first character of `p` does not contain `p`. */
  lemma FindLacking(s: string, p: string)
    requires p != [] && Lacks(s, p[0])
    ensures Find(s, p).None?
  {
    forall j | 0 <= j <= |s| ensures !OccursAt(s, j, p) {
      if j < |s| && j + |p| <= |s| {
        assert s[j..j + |p|][0] == s[j];
      }
    }
  }

  /** Where `p` occurs, every character of `p` occurs. */
  lemma ContainsPart(s: string, p: string, k: nat)
    requires Contains(s, p) && k < |p|
    ensures Contains(s, [p[k]])
  {
    var i := Find(s, p).value;
    assert s[i..i + |p|][k] == s[i + k];
    assert OccursAt(s, i + k, [p[k]]);
  }

  /** Python's `p in s` for strings. */
  predicate Contains(s: string, p: string) {
    Find(s, p).Some?
  }

  /** `p` does not occur in `s` at any index before `i`. */
  predicate AbsentBefore(s: string, i: int, p: string) {
    forall j :: 0 <= j < i ==> !OccursAt(s, j, p)
  }

  /**
    Where `p` occurs at `i` and not in the text before `i`, no occurrence starts before `i`,
    provided the first character of `p` does not recur in `p` (so occurrences cannot overlap).
   */
  lemma AbsentBeforeOccurrence(s: string, i: nat, p: string)
    requires p != [] && Lacks(p[1..], p[0])
    requires OccursAt(s, i, p) && !Contains(s[..i], p)
    ensures AbsentBefore(s, i, p)
  {
    var t := s[..i];
    forall j | 0 <= j < i ensures !OccursAt(s, j, p) {
      if j + |p| <= i {
        assert t[j..j + |p|] == s[j..j + |p|];
        assert OccursAt(s, j, p) ==> OccursAt(t, j, p);
      } else if j + |p| <= |s| {
        assert s[j..j + |p|][i - j] == s[i] == s[i..i + |p|][0];
        assert p[1..][i - j - 1] == p[i - j];
      }
    }
  }

  /** The first occurrence is the one at `i` exactly when no occurrence starts before it. */
  lemma FindAt(s: string, i: nat, p: string)
    requires OccursAt(s, i, p) && AbsentBefore(s, i, p)
    ensures Find(s, p) == Some(i)
  {
  }

  /** Python's `s.split(sep)` for a non-empty separator: the pieces between occurrences, left to right. */
  function Split(s: string, sep: string): (r: seq<string>)
    requires sep != []
    ensures |r| >= 1
    decreases |s|
  {
    match Find(s, sep)
    case None => [s]
    case Some(i) => [s[..i]] + Split(s[i + |sep|..], sep)
  }

  /** Splitting a string in which the separator cannot occur gives the string itself. */
  lemma SplitLacking(s: string, sep: string)
    requires sep != [] && Lacks(s, sep[0])
    ensures Split(s, sep) == [s]
  {
    FindLacking(s, sep);
  }

  /**
    The first piece of a split ends at the first occurrence of the separator: here the one right
    after a prefix that does not contain the separator's first character.
   */
  lemma {:induction false} SplitAfterLacking(a: string, sep: string, b: string)
    requires sep != [] && Lacks(a, sep[0])
    ensures Split(a + sep + b, sep) == [a] + Split(b, sep)
  {
    var s := a + sep + b;
    assert s[|a|..|a| + |sep|] == sep;
    assert OccursAt(s, |a|, sep);
    var k := Find(s, sep).value;
    assert s[k..k + |sep|][0] == s[k];
    assert forall j :: 0 <= j < |a| ==> s[j] == a[j];
    assert k == |a|;
    assert s[..|a|] == a;
    assert s[|a| + |sep|..] == b;
  }

  /**
    The first piece of a split ends at the first occurrence of the separator: here the one right
    after a prefix that does not contain it, for a separator whose first character does not recur.
   */
  lemma SplitAfterAbsent(a: string, sep: string, b: string)
    requires sep != [] && Lacks(sep[1..], sep[0]) && !Contains(a, sep)
    ensures Split(a + sep + b, sep) == [a] + Split(b, sep)
  {
    var s := a + sep + b;
    assert s[|a|..|a| + |sep|] == sep;
    assert s[..|a|] == a;
    AbsentBeforeOccurrence(s, |a|, sep);
    FindAt(s, |a|, sep);
    assert s[|a| + |sep|..] == b;
  }

  /** Regrouping a concatenation of five pieces around its first one. */
  lemma Regroup5(a: string, b: string, c: string, d: string, e: string)
    ensures (((a + b) + c) + d) + e == a + (((b + c) + d) + e)
  {
  }

  /** Regrouping a concatenation around a middle piece of five. */
  lemma Regroup7(a: string, k: string, b: string, c: string, d: string, e: string, f: string)
    ensures a + (k + b + c + d + e) + f == a + k + b + c + d + e + f
  {
  }

  /** Regrouping a concatenation of five pieces around its third one. */
  lemma RegroupMiddle(a: string, b: string, c: string, d: string, e: string)
    ensures a + b + (c + d + e) == (a + b + c) + d + e
  {
  }

  /** Python's `sep.join(parts)`. */
  function Join(parts: seq<string>, sep: string): string
  {
    if |parts| == 0 then ""
    else if |parts| == 1 then parts[0]
    else parts[0] + sep + Join(parts[1..], sep)
  }

  /** A join of at least two pieces: the first piece, the separator, then the join of the rest. */
  lemma JoinCons(a: string, tail: seq<string>, sep: string)
    requires |tail| >= 1
    ensures Join([a] + tail, sep) == a + sep + Join(tail, sep)
  {
    assert ([a] + tail)[1..] == tail;
  }

  /** A string is the text before an occurrence of `p`, `p`, and the text after it. */
  lemma AroundOccurrence(s: string, i: nat, p: string)
    requires OccursAt(s, i, p)
    ensures s == s[..i] + p + s[i + |p|..]
  {
    assert s == s[..i] + s[i..i + |p|] + s[i + |p|..];
  }

  /** Joining the pieces of a split with the same separator gives back the string. */
  lemma {:induction false} JoinSplit(s: string, sep: string)
    requires sep != []
    ensures Join(Split(s, sep), sep) == s
    decreases |s|
  {
    var f := Find(s, sep);
    if f.Some? {
      var i := f.value;
      var rest := s[i + |sep|..];
      JoinSplit(rest, sep);
      assert Split(s, sep) == [s[..i]] + Split(rest, sep);
      JoinCons(s[..i], Split(rest, sep), sep);
      AroundOccurrence(s, i, sep);
    }
  }

  /** Splitting the join of pieces that cannot hold the separator gives the pieces back. */
  lemma {:induction false} SplitJoin(parts: seq<string>, sep: string)
    requires |parts| > 0 && sep != []
    requires forall k :: 0 <= k < |parts| ==> Lacks(parts[k], sep[0])
    ensures Split(Join(parts, sep), sep) == parts
  {
    if |parts| == 1 {
      SplitLacking(parts[0], sep);
    } else {
      SplitJoin(parts[1..], sep);
      SplitAfterLacking(parts[0], sep, Join(parts[1..], sep));
      assert parts == [parts[0]] + parts[1..];
    }
  }

  /** A join of non-empty pieces starts with the first piece's first character and ends with the last's last. */
  lemma {:induction false} JoinEdges(parts: seq<string>, sep: string)
    requires |parts| > 0 && forall k :: 0 <= k < |parts| ==> parts[k] != []
    ensures var j := Join(parts, sep); j != [] && j[0] == parts[0][0] && j[|j| - 1] == Last(parts)[|Last(parts)| - 1]
  {
    if |parts| > 1 {
      JoinEdges(parts[1..], sep);
      var rest := Join(parts[1..], sep);
      assert Last(parts[1..]) == Last(parts);
      assert (parts[0] + sep + rest)[|parts[0] + sep + rest| - 1] == rest[|rest| - 1];
    }
  }

  /** A split yields more than one piece exactly when the separator occurs. */
  lemma SplitManyIffContains(s: string, sep: string)
    requires sep != []
    ensures |Split(s, sep)| >= 2 <==> Contains(s, sep)
  {
  }

  /** Python's `s.replace(target, with)`; it is `with.join(s.split(target))`, so every occurrence goes. */
  function Replace(s: string, target: string, with: string): string
    requires target != []
  {
    Join(Split(s, target), with)
  }

  /** Python's `s.replace(a, b)` for single characters. */
  function ReplaceChar(s: string, a: char, b: char): (r: string)
    ensures |r| == |s|
    ensures forall i :: 0 <= i < |s| ==> r[i] == (if s[i] == a then b else s[i])
  {
    if s == [] then [] else [if s[0] == a then b else s[0]] + ReplaceChar(s[1..], a, b)
  }

  /** The longest prefix of `s` without whitespace. */
  function Word(s: string): (w: string)
    ensures |w| <= |s| && w == s[..|w|] && NoSpace(w)
    ensures |w| == |s| || IsSpace(s[|w|])
  {
    if s == [] || IsSpace(s[0]) then [] else [s[0]] + Word(s[1..])
  }

  /** Python's `s.split()`: the maximal runs of non-whitespace, in order. */
  function Tokens(s: string): (r: seq<string>)
    ensures forall k :: 0 <= k < |r| ==> r[k] != [] && NoSpace(r[k])
    decreases |s|
  {
    if s == [] then []
    else if IsSpace(s[0]) then Tokens(s[1..])
    else
      var w := Word(s);
      assert |w| > 0;
      [w] + Tokens(s[|w|..])
  }

  /** `s.split()` is empty exactly when `s` is blank. */
  lemma {:induction false} TokensEmptyIffBlank(s: string)
    ensures Tokens(s) == [] <==> IsBlank(s)
    decreases |s|
  {
    if s != [] && IsSpace(s[0]) {
      TokensEmptyIffBlank(s[1..]);
      assert IsBlank(s) <==> IsBlank(s[1..]) by {
        assert forall i :: 1 <= i < |s| ==> s[i] == s[1..][i - 1];
      }
    }
  }

  /** Python's `parts[-1]`. */
  function Last<T>(parts: seq<T>): T
    requires |parts| > 0
  {
    parts[|parts| - 1]
  }
}
