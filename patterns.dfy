/**
  The regular expressions the parsers give to Python's `re.search`, and `re.search` itself:
  the match at the FIRST position of the subject where the pattern matches.

  - `ModelField`        is `model:(\S+)`
  - `Pair(key, sep)`    is `KEY\s*(\d+)SEP(\d+)`, e.g. `Override size:\s*(\d+)x(\d+)`
  - `Number(key)`       is `KEY\s*(\d+)`,          e.g. `Physical density:\s*(\d+)`

  A match at one position is computed with maximal runs: `\s*` is followed by a digit and
  `\d+` by the non-digit separator (or by nothing), and no character is both whitespace and
  a digit, so backtracking to a shorter run can never produce another match.
 */
module Patterns {
  import opened Wrappers
  import opened Strings
  import opened Numbers

  datatype Pattern =
    | ModelField
    | Pair(key: string, sep: char)
    | Number(key: string)

  /** A successful search: where the match starts and the captured groups. */
  datatype Match = Match(start: nat, groups: seq<string>)

  datatype CharClass = Space | Digit | NonSpace

  predicate InClass(cls: CharClass, c: char) {
    match cls
    case Space => IsSpace(c)
    case Digit => IsDigit(c)
    case NonSpace => !IsSpace(c)
  }

  /** The end of the longest run of `cls` characters of `s` that starts at `i`. */
  function RunEnd(s: string, i: nat, cls: CharClass): (e: nat)
    requires i <= |s|
    ensures i <= e <= |s|
    ensures forall k :: i <= k < e ==> InClass(cls, s[k])
    ensures e == |s| || !InClass(cls, s[e])
    decreases |s| - i
  {
    if i < |s| && InClass(cls, s[i]) then RunEnd(s, i + 1, cls) else i
  }

  /** The groups the pattern captures when matched at index `i` of `s`, if it matches there. */
  function MatchAt(p: Pattern, s: string, i: nat): (r: Option<seq<string>>)
    requires i <= |s|
    ensures r.Some? ==> WellShaped(p, r.value)
  {
    match p
    case ModelField =>
      if !OccursAt(s, i, "model:") then None
      else
        var a := i + 6;
        var e := RunEnd(s, a, NonSpace);
        if e == a then None else Some([s[a..e]])
    case Pair(key, sep) =>
      if !OccursAt(s, i, key) then None
      else
        var a := RunEnd(s, i + |key|, Space);
        var b := RunEnd(s, a, Digit);
        if b == a || b == |s| || s[b] != sep then None
        else
          var c := RunEnd(s, b + 1, Digit);
          if c == b + 1 then None else Some([s[a..b], s[b + 1..c]])
    case Number(key) =>
      if !OccursAt(s, i, key) then None
      else
        var a := RunEnd(s, i + |key|, Space);
        var b := RunEnd(s, a, Digit);
        if b == a then None else Some([s[a..b]])
  }

  /** What the groups of each pattern look like: one non-blank word, or one or two numerals. */
  predicate WellShaped(p: Pattern, groups: seq<string>) {
    match p
    case ModelField => |groups| == 1 && groups[0] != [] && NoSpace(groups[0])
    case Pair(_, _) => |groups| == 2 && IsNumeral(groups[0]) && IsNumeral(groups[1])
    case Number(_) => |groups| == 1 && IsNumeral(groups[0])
  }

  /** The first match at an index `>= i`. */
  function SearchFrom(p: Pattern, s: string, i: nat): (r: Option<Match>)
    requires i <= |s|
    ensures r.Some? ==> i <= r.value.start <= |s| && MatchAt(p, s, r.value.start) == Some(r.value.groups)
    ensures r.Some? ==> forall j :: i <= j < r.value.start ==> MatchAt(p, s, j).None?
    ensures r.None? <==> forall j :: i <= j <= |s| ==> MatchAt(p, s, j).None?
    decreases |s| - i
  {
    match MatchAt(p, s, i)
    case Some(g) => Some(Match(i, g))
    case None => if i == |s| then None else SearchFrom(p, s, i + 1)
  }

  /** Python's `re.search(p, s)`: the match at the first index of `s` where `p` matches. */
  function Search(p: Pattern, s: string): (r: Option<Match>)
    ensures r.Some? ==> r.value.start <= |s| && MatchAt(p, s, r.value.start) == Some(r.value.groups)
    ensures r.Some? ==> forall j :: 0 <= j < r.value.start ==> MatchAt(p, s, j).None?
    ensures r.None? <==> forall j :: 0 <= j <= |s| ==> MatchAt(p, s, j).None?
    ensures r.Some? ==> WellShaped(p, r.value.groups)
  {
    SearchFrom(p, s, 0)
  }

  /** `m.group(1)` (or `m.groups()`) of a search, `None` when it found nothing. */
  function Groups(p: Pattern, s: string): (r: Option<seq<string>>)
    ensures r.Some? ==> WellShaped(p, r.value)
  {
    match Search(p, s)
    case None => None
    case Some(m) => Some(m.groups)
  }

  /** The two integers of a `Pair` search, as `map(int, m.groups())` gives them. */
  function PairValues(key: string, sep: char, s: string): Option<(nat, nat)>
  {
    match Groups(Pair(key, sep), s)
    case None => None
    case Some(g) => Some((NumeralValue(g[0]), NumeralValue(g[1])))
  }

  /** The integer of a `Number` search, as `int(m.group(1))` gives it. */
  function NumberValue(key: string, s: string): Option<nat>
  {
    match Groups(Number(key), s)
    case None => None
    case Some(g) => Some(NumeralValue(g[0]))
  }

  /** A run of class `cls` from `i` to `e` that cannot be extended is the one `RunEnd` finds. */
  lemma {:induction false} RunEndIs(s: string, i: nat, e: nat, cls: CharClass)
    requires i <= e <= |s|
    requires forall k :: i <= k < e ==> InClass(cls, s[k])
    requires e == |s| || !InClass(cls, s[e])
    ensures RunEnd(s, i, cls) == e
  {
  }

  /** A run of class `cls` over the slice `s[i..e]`, not continued at `e`, ends at `e`. */
  lemma {:induction false} RunEndOverSlice(s: string, i: nat, e: nat, cls: CharClass)
    requires i <= e <= |s|
    requires forall k :: 0 <= k < e - i ==> InClass(cls, s[i..e][k])
    requires e == |s| || !InClass(cls, s[e])
    ensures RunEnd(s, i, cls) == e
  {
    assert forall k :: i <= k < e ==> s[k] == s[i..e][k - i];
    RunEndIs(s, i, e, cls);
  }

  /** The pair pattern at `i` in terms of where its runs end. */
  lemma PairMatchIs(key: string, sep: char, s: string, i: nat, a: nat, b: nat, c: nat)
    requires i <= |s| && OccursAt(s, i, key)
    requires RunEnd(s, i + |key|, Space) == a && RunEnd(s, a, Digit) == b
    requires a < b < |s| && s[b] == sep
    requires RunEnd(s, b + 1, Digit) == c && b + 1 < c
    ensures MatchAt(Pair(key, sep), s, i) == Some([s[a..b], s[b + 1..c]])
  {
  }

  /** The number pattern at `i` in terms of where its runs end. */
  lemma NumberMatchIs(key: string, s: string, i: nat, a: nat, b: nat)
    requires i <= |s| && OccursAt(s, i, key)
    requires RunEnd(s, i + |key|, Space) == a && RunEnd(s, a, Digit) == b && a < b
    ensures MatchAt(Number(key), s, i) == Some([s[a..b]])
  {
  }

  /** A run of class `cls` written as the part `y` of `s` from `i` to `e`, not continued at `e`, ends at `e`. */
  lemma RunEndOverPart(s: string, i: nat, e: nat, cls: CharClass, y: string)
    requires i <= e <= |s| && s[i..e] == y
    requires cls == Space ==> IsBlank(y)
    requires cls == Digit ==> AllDigits(y)
    requires cls != NonSpace
    requires e == |s| || !InClass(cls, s[e])
    ensures RunEnd(s, i, cls) == e
  {
    assert forall k :: 0 <= k < |y| ==> InClass(cls, y[k]);
    RunEndOverSlice(s, i, e, cls);
  }

  /**
    A pair pattern matches text written as `key`, blanks, `str(w)`, `sep`, `str(h)` (followed
    by anything that does not continue the number) and captures exactly `str(w)` and `str(h)`.
   */
  lemma {:induction false} PairMatchesRendered(pre: string, key: string, blanks: string, w: nat, sep: char, h: nat, post: string)
    requires !IsDigit(sep) && !IsSpace(sep)
    requires IsBlank(blanks)
    requires post == [] || !IsDigit(post[0])
    ensures var s := pre + key + blanks + NatToString(w) + [sep] + NatToString(h) + post;
            MatchAt(Pair(key, sep), s, |pre|) == Some([NatToString(w), NatToString(h)])
  {
    PairMatchesNumerals(pre, key, blanks, NatToString(w), sep, NatToString(h), post);
  }

  lemma PairMatchesNumerals(pre: string, key: string, blanks: string, dw: string, sep: char, dh: string, post: string)
    requires !IsDigit(sep) && !IsSpace(sep)
    requires IsBlank(blanks) && IsNumeral(dw) && IsNumeral(dh)
    requires post == [] || !IsDigit(post[0])
    ensures var s := pre + key + blanks + dw + [sep] + dh + post;
            MatchAt(Pair(key, sep), s, |pre|) == Some([dw, dh])
  {
    PairLayout(pre, key, blanks, dw, sep, dh, post);
    PairMatchesLaidOut(pre + key + blanks + dw + [sep] + dh + post, |pre|, key, blanks, dw, sep, dh, post);
  }

  /** The pair pattern on text whose parts sit where `PairLayout` puts them. */
  lemma PairMatchesLaidOut(s: string, i0: nat, key: string, blanks: string, dw: string, sep: char, dh: string, post: string)
    requires !IsDigit(sep) && !IsSpace(sep)
    requires IsBlank(blanks) && IsNumeral(dw) && IsNumeral(dh)
    requires post == [] || !IsDigit(post[0])
    requires var i1, i2 := i0 + |key|, i0 + |key| + |blanks|;
             var i3 := i2 + |dw|;
             var i4 := i3 + 1 + |dh|;
             && |s| == i4 + |post|
             && s[i0..i1] == key && s[i1..i2] == blanks && s[i2..i3] == dw
             && s[i3] == sep && s[i3 + 1..i4] == dh
             && (i4 < |s| ==> s[i4] == post[0])
    ensures MatchAt(Pair(key, sep), s, i0) == Some([dw, dh])
  {
    var i1, i2 := i0 + |key|, i0 + |key| + |blanks|;
    var i3 := i2 + |dw|;
    var i4 := i3 + 1 + |dh|;
    PairRuns(s, i1, i2, i3, i4, blanks, dw, sep, dh);
    PairMatchIs(key, sep, s, i0, i2, i3, i4);
  }

  lemma PairRuns(s: string, i1: nat, i2: nat, i3: nat, i4: nat, blanks: string, dw: string, sep: char, dh: string)
    requires !IsDigit(sep)
    requires IsBlank(blanks) && IsNumeral(dw) && IsNumeral(dh)
    requires i1 <= i2 < i3 < i4 <= |s|
    requires s[i1..i2] == blanks && s[i2..i3] == dw && s[i3] == sep && s[i3 + 1..i4] == dh
    requires i4 == |s| || !IsDigit(s[i4])
    ensures RunEnd(s, i1, Space) == i2 && RunEnd(s, i2, Digit) == i3 && RunEnd(s, i3 + 1, Digit) == i4
  {
    assert !InClass(Space, s[i2]) by { assert s[i2] == dw[0]; }
    RunEndOverPart(s, i1, i2, Space, blanks);
    RunEndOverPart(s, i2, i3, Digit, dw);
    RunEndOverPart(s, i3 + 1, i4, Digit, dh);
  }

  /** Where each part of the written text sits. */
  lemma PairLayout(pre: string, key: string, blanks: string, dw: string, sep: char, dh: string, post: string)
    ensures var s := pre + key + blanks + dw + [sep] + dh + post;
            var i0, i1, i2, i3 := |pre|, |pre| + |key|, |pre| + |key| + |blanks|, |pre| + |key| + |blanks| + |dw|;
            var i4 := i3 + 1 + |dh|;
            && |s| == i4 + |post|
            && s[i0..i1] == key && s[i1..i2] == blanks && s[i2..i3] == dw
            && s[i3] == sep && s[i3 + 1..i4] == dh
            && (i4 < |s| ==> s[i4] == post[0])
  {
    var q := pre + key;
    var r1 := q + blanks;
    var r2 := r1 + dw;
    var r3 := r2 + [sep];
    var r4 := r3 + dh;
    var s := r4 + post;
    var i0, i1, i2, i3, i4 := |pre|, |q|, |r1|, |r2|, |r4|;
    assert s[..i4] == r4;
    assert s[i0..i1] == q[i0..i1] == key;
    assert s[i1..i2] == r1[i1..i2] == blanks;
    assert s[i2..i3] == r2[i2..i3] == dw;
    assert s[i3] == r3[i3] == sep;
    assert s[i3 + 1..i4] == r4[i3 + 1..i4] == dh;
    assert i4 < |s| ==> s[i4] == post[0];
  }

  /** The keyed patterns. */
  predicate Keyed(p: Pattern) {
    (p.Pair? || p.Number?) && p.key != []
  }

  /**
    A keyed pattern that matches at `i`, where its key does not occur before `i`, is what
    `re.search` finds.
   */
  lemma {:induction false} SearchFindsAt(p: Pattern, s: string, i: nat, g: seq<string>)
    requires Keyed(p) && i <= |s|
    requires MatchAt(p, s, i) == Some(g)
    requires AbsentBefore(s, i, p.key)
    ensures Groups(p, s) == Some(g)
  {
    NoMatchBefore(p, s, i);
    var r := Search(p, s);
    assert r.Some?;
    assert r.value.start <= i;
  }

  /** A keyed pattern cannot match before the first occurrence of its key. */
  lemma {:induction false} NoMatchBefore(p: Pattern, s: string, i: nat)
    requires Keyed(p) && i <= |s|
    requires AbsentBefore(s, i, p.key)
    ensures forall j :: 0 <= j < i ==> MatchAt(p, s, j).None?
  {
    forall j | 0 <= j < i ensures MatchAt(p, s, j).None? {
      KeyAbsent(p, s, j);
    }
  }

  /** A keyed pattern does not match where its key does not occur. */
  lemma KeyAbsent(p: Pattern, s: string, j: nat)
    requires Keyed(p) && j <= |s| && !OccursAt(s, j, p.key)
    ensures MatchAt(p, s, j).None?
  {
  }

  /** A keyed pattern whose key does not occur in `s` finds nothing. */
  lemma {:induction false} SearchWithoutKey(p: Pattern, s: string)
    requires Keyed(p) && !Contains(s, p.key)
    ensures Groups(p, s).None?
  {
    forall j | 0 <= j <= |s| ensures MatchAt(p, s, j).None? {
      KeyAbsent(p, s, j);
    }
  }

  /**
    A number pattern matches text written as `key`, blanks, `str(v)` (followed by anything that
    does not continue the number) and captures exactly `str(v)`.
   */
  lemma {:induction false} NumberMatchesRendered(pre: string, key: string, blanks: string, v: nat, post: string)
    requires IsBlank(blanks)
    requires post == [] || !IsDigit(post[0])
    ensures var s := pre + key + blanks + NatToString(v) + post;
            MatchAt(Number(key), s, |pre|) == Some([NatToString(v)])
  {
    NumberMatchesNumeral(pre, key, blanks, NatToString(v), post);
  }

  lemma NumberMatchesNumeral(pre: string, key: string, blanks: string, dv: string, post: string)
    requires IsBlank(blanks) && IsNumeral(dv)
    requires post == [] || !IsDigit(post[0])
    ensures var s := pre + key + blanks + dv + post;
            MatchAt(Number(key), s, |pre|) == Some([dv])
  {
    NumberLayout(pre, key, blanks, dv, post);
    NumberMatchesLaidOut(pre + key + blanks + dv + post, |pre|, key, blanks, dv, post);
  }

  /** The number pattern on text whose parts sit where `NumberLayout` puts them. */
  lemma NumberMatchesLaidOut(s: string, i0: nat, key: string, blanks: string, dv: string, post: string)
    requires IsBlank(blanks) && IsNumeral(dv)
    requires post == [] || !IsDigit(post[0])
    requires var i1, i2 := i0 + |key|, i0 + |key| + |blanks|;
             var i3 := i2 + |dv|;
             && |s| == i3 + |post|
             && s[i0..i1] == key && s[i1..i2] == blanks && s[i2..i3] == dv
             && (i3 < |s| ==> s[i3] == post[0])
    ensures MatchAt(Number(key), s, i0) == Some([dv])
  {
    var i1, i2 := i0 + |key|, i0 + |key| + |blanks|;
    var i3 := i2 + |dv|;
    assert OccursAt(s, i0, key);
    assert s[i2] == dv[0];
    RunEndOverPart(s, i1, i2, Space, blanks);
    RunEndOverPart(s, i2, i3, Digit, dv);
    NumberMatchIs(key, s, i0, i2, i3);
  }

  /** Where each part of the written text sits. */
  lemma NumberLayout(pre: string, key: string, blanks: string, dv: string, post: string)
    ensures var s := pre + key + blanks + dv + post;
            var i0, i1, i2, i3 := |pre|, |pre| + |key|, |pre| + |key| + |blanks|, |pre| + |key| + |blanks| + |dv|;
            && |s| == i3 + |post|
            && s[i0..i1] == key && s[i1..i2] == blanks && s[i2..i3] == dv
            && (i3 < |s| ==> s[i3] == post[0])
  {
    var q := pre + key;
    var r1 := q + blanks;
    var r2 := r1 + dv;
    var s := r2 + post;
    var i0, i1, i2, i3 := |pre|, |q|, |r1|, |r2|;
    assert s[..i3] == r2;
    assert s[i0..i1] == q[i0..i1] == key;
    assert s[i1..i2] == r1[i1..i2] == blanks;
    assert s[i2..i3] == r2[i2..i3] == dv;
    assert i3 < |s| ==> s[i3] == post[0];
  }
}
