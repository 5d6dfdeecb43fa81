/** The handful of Python `str` operations the career-mentor code applies
    to model replies: `strip`, `startswith`, `endswith`, `split`, `join`,
    `replace(old, "")` and `splitlines`. Strings are sequences of Unicode
    scalar values: unlike a Python `str`, the model holds no lone
    surrogates. */
module Text {
  import opened Base

  /** The characters for which Python's `str.isspace()` holds; they are
      what `str.strip()` without arguments removes. */
  predicate IsSpace(c: char) {
    c == '\t' || c == '\n' || c == '\U{000B}' || c == '\U{000C}' || c == '\r'
    || ('\U{001C}' <= c <= '\U{001F}') || c == ' ' || c == '\U{0085}' || c == '\U{00A0}'
    || c == '\U{1680}' || ('\U{2000}' <= c <= '\U{200A}') || c == '\U{2028}' || c == '\U{2029}'
    || c == '\U{202F}' || c == '\U{205F}' || c == '\U{3000}'
  }

  /** The line boundaries of Python's `str.splitlines()` ("\r\n" counts as one). */
  predicate IsLineBreak(c: char) {
    c == '\n' || c == '\r' || c == '\U{000B}' || c == '\U{000C}'
    || ('\U{001C}' <= c <= '\U{001E}') || c == '\U{0085}' || c == '\U{2028}' || c == '\U{2029}'
  }

  /** The character sets the code strips: Python's whitespace, and the
      "-• " that `main.py` passes to `strip` for bulleted lines. */
  datatype Chars = Spaces | BulletsAndSpace

  predicate In(c: char, cs: Chars) {
    match cs
    case Spaces => IsSpace(c)
    case BulletsAndSpace => c == '-' || c == '\U{2022}' || c == ' '
  }

  /** True when `s.strip()` is empty. */
  predicate IsBlank(s: string) {
    forall i :: 0 <= i < |s| ==> IsSpace(s[i])
  }

  /** `s` holds no line boundary. */
  predicate NoBreaks(s: string) {
    forall i :: 0 <= i < |s| ==> !IsLineBreak(s[i])
  }

  /** Neither end of `s` is whitespace: `s.strip() == s`. */
  predicate IsStripped(s: string) {
    s == [] || (!IsSpace(s[0]) && !IsSpace(s[|s| - 1]))
  }

  predicate StartsWith(s: string, prefix: string) {
    |prefix| <= |s| && s[..|prefix|] == prefix
  }

  predicate EndsWith(s: string, suffix: string) {
    |suffix| <= |s| && s[|s| - |suffix|..] == suffix
  }

  // ---------------------------------------------------------------- strip

  /** Number of leading characters of `s` that belong to `cs`. */
  function LeadingIn(s: string, cs: Chars): (n: nat)
    ensures n <= |s|
    ensures forall k :: 0 <= k < n ==> In(s[k], cs)
    ensures n < |s| ==> !In(s[n], cs)
  {
    if |s| > 0 && In(s[0], cs) then 1 + LeadingIn(s[1..], cs) else 0
  }

  /** Number of trailing characters of `s` that belong to `cs`. */
  function TrailingIn(s: string, cs: Chars): (n: nat)
    ensures n <= |s|
    ensures forall k :: |s| - n <= k < |s| ==> In(s[k], cs)
    ensures n < |s| ==> !In(s[|s| - 1 - n], cs)
  {
    if |s| > 0 && In(s[|s| - 1], cs) then 1 + TrailingIn(s[..|s| - 1], cs) else 0
  }

  /** `r` is the slice of `s` left once every leading and every trailing
      character from `cs` is cut off; there is exactly one such `r`. */
  ghost predicate TrimmedOf(r: string, s: string, cs: Chars) {
    exists i, j :: TrimmedAt(r, s, cs, i, j)
  }

  /** `r` is `s[i..j]`, everything outside that slice is in `cs`, and
      neither end of `r` is. */
  predicate TrimmedAt(r: string, s: string, cs: Chars, i: int, j: int) {
    0 <= i <= j <= |s| && r == s[i..j]
    && AllIn(s, 0, i, cs) && AllIn(s, j, |s|, cs)
    && (r == [] || (!In(r[0], cs) && !In(r[|r| - 1], cs)))
  }

  /** Every character of `s[lo..hi]` is in `cs`. */
  predicate AllIn(s: string, lo: int, hi: int, cs: Chars) {
    forall k :: lo <= k < hi && 0 <= k < |s| ==> In(s[k], cs)
  }

  /** Python's `s.strip(chars)` with `chars` given as a set. */
  function StripIn(s: string, cs: Chars): (r: string)
    ensures r == [] <==> forall k :: 0 <= k < |s| ==> In(s[k], cs)
    ensures r != [] ==> !In(r[0], cs) && !In(r[|r| - 1], cs)
    ensures (s == [] || (!In(s[0], cs) && !In(s[|s| - 1], cs))) ==> r == s
  {
    var i := LeadingIn(s, cs);
    var t := s[i..];
    var j := i + (|t| - TrailingIn(t, cs));
    assert t[..|t| - TrailingIn(t, cs)] == s[i..j];
    s[i..j]
  }

  /** Python's `s.strip()`. */
  function Strip(s: string): (r: string)
    ensures IsStripped(r)
    ensures r == [] <==> IsBlank(s)
    ensures IsStripped(s) ==> r == s
  {
    StripIn(s, Spaces)
  }

  /** `StripIn` cuts exactly the leading and trailing characters from `cs`. */
  lemma StripInIsTrimmed(s: string, cs: Chars)
    ensures TrimmedOf(StripIn(s, cs), s, cs)
  {
    var i := LeadingIn(s, cs);
    if i == |s| {
      assert AllIn(s, 0, |s|, cs);
      assert TrimmedAt(StripIn(s, cs), s, cs, |s|, |s|);
    } else {
      var j := |s| - TrailingIn(s, cs);
      assert i < j;
      TrimmedSliceIsStripIn(s, cs, i, j);
      assert TrimmedAt(StripIn(s, cs), s, cs, i, j);
    }
  }

  /** The first character of `s` outside `cs` sits at `LeadingIn(s, cs)`. */
  lemma LeadingInIsFirst(s: string, cs: Chars, i: nat)
    requires i < |s| && !In(s[i], cs)
    requires forall k :: 0 <= k < i ==> In(s[k], cs)
    ensures LeadingIn(s, cs) == i
  {
  }

  /** The last character of `s` outside `cs` sits just before the
      `TrailingIn(s, cs)` trailing ones. */
  lemma TrailingInIsLast(s: string, cs: Chars, j: nat)
    requires 0 < j <= |s| && !In(s[j - 1], cs)
    requires forall k :: j <= k < |s| ==> In(s[k], cs)
    ensures TrailingIn(s, cs) == |s| - j
  {
  }

  /** A non-empty trimmed slice is the one `StripIn` computes. */
  lemma TrimmedSliceIsStripIn(s: string, cs: Chars, i: nat, j: nat)
    requires i < j <= |s| && !In(s[i], cs) && !In(s[j - 1], cs)
    requires forall k :: 0 <= k < i ==> In(s[k], cs)
    requires forall k :: j <= k < |s| ==> In(s[k], cs)
    ensures StripIn(s, cs) == s[i..j]
  {
    LeadingInIsFirst(s, cs, i);
    var t := s[i..];
    assert t[j - i - 1] == s[j - 1];
    TrailingInIsLast(t, cs, j - i);
  }

  /** An empty trimmed slice means every character of `s` is in `cs`. */
  lemma TrimmedEmpty(s: string, cs: Chars, i: nat, j: nat)
    requires i <= j <= |s| && s[i..j] == []
    requires forall k :: 0 <= k < i ==> In(s[k], cs)
    requires forall k :: j <= k < |s| ==> In(s[k], cs)
    ensures StripIn(s, cs) == []
  {
    assert i == j;
    forall k | 0 <= k < |s| ensures In(s[k], cs) {
      if k < i {} else {}
    }
  }

  /** Text that does not start with whitespace loses only its trailing
      whitespace. */
  lemma StripFromStart(s: string)
    requires s != [] && !IsSpace(s[0])
    ensures Strip(s) == s[..|s| - TrailingIn(s, Spaces)]
    ensures |s| - TrailingIn(s, Spaces) >= 1
  {
    assert LeadingIn(s, Spaces) == 0;
    assert s[0..] == s;
  }

  /** Trimming text that starts with a part whose ends are not whitespace
      keeps that part at the front. */
  lemma StripKeepsPrefix(p: string, m: string)
    requires p != [] && !IsSpace(p[0]) && !IsSpace(p[|p| - 1])
    ensures StartsWith(Strip(p + m), p)
  {
    var s := p + m;
    assert s[0] == p[0] && s[|p| - 1] == p[|p| - 1];
    var n := TrailingIn(s, Spaces);
    assert |s| - n >= |p|;
    assert Strip(s) == s[..|s| - n];
    assert s[..|s| - n][..|p|] == p;
  }

  /** Padding made only of characters from `cs` is cut off a text whose
      ends are outside `cs`. */
  lemma StripInPadded(pre: string, q: string, post: string, cs: Chars)
    requires q != [] && !In(q[0], cs) && !In(q[|q| - 1], cs)
    requires forall k :: 0 <= k < |pre| ==> In(pre[k], cs)
    requires forall k :: 0 <= k < |post| ==> In(post[k], cs)
    ensures StripIn(pre + q + post, cs) == q
  {
    var s := pre + q + post;
    var i, j := |pre|, |pre| + |q|;
    assert s[i..j] == q;
    assert s[i] == q[0] && s[j - 1] == q[|q| - 1];
    forall k | 0 <= k < i ensures In(s[k], cs) {
      assert s[k] == pre[k];
    }
    forall k | j <= k < |s| ensures In(s[k], cs) {
      assert s[k] == post[k - j];
    }
    TrimmedSliceIsStripIn(s, cs, i, j);
  }

  /** `TrimmedOf` pins its first argument down: the only string that is `s`
      trimmed of `cs` is `StripIn(s, cs)`. */
  lemma TrimmedOfUnique(r: string, s: string, cs: Chars)
    requires TrimmedOf(r, s, cs)
    ensures r == StripIn(s, cs)
  {
    var i, j :| TrimmedAt(r, s, cs, i, j);
    if r == [] {
      TrimmedEmpty(s, cs, i, j);
    } else {
      assert r[0] == s[i] && r[|r| - 1] == s[j - 1];
      TrimmedSliceIsStripIn(s, cs, i, j);
    }
  }

  // ---------------------------------------------------------------- search

  /** `pat` occurs in `s` starting at index `k`. */
  predicate OccursAt(s: string, pat: string, k: int) {
    0 <= k && k + |pat| <= |s| && s[k..k + |pat|] == pat
  }

  /** Python's `pat in s`. */
  ghost predicate Occurs(s: string, pat: string) {
    exists k :: OccursAt(s, pat, k)
  }

  lemma OccursShift(s: string, pat: string, k: int)
    requires |s| > 0 && 0 <= k
    ensures OccursAt(s[1..], pat, k) <==> OccursAt(s, pat, k + 1)
  {
    if 0 <= k && k + |pat| <= |s| - 1 {
      assert s[1..][k..k + |pat|] == s[k + 1..k + 1 + |pat|];
    }
  }

  /** Python's `s.find(pat)`, as an option: the first index where `pat`
      occurs (`FindFirst` proves that no earlier index qualifies). */
  function Find(s: string, pat: string): (r: Option<nat>)
    requires |pat| > 0
    ensures r.Some? ==> OccursAt(s, pat, r.value)
    decreases |s|
  {
    if |s| < |pat| then None
    else if s[..|pat|] == pat then Some(0)
    else
      match Find(s[1..], pat)
      case None => None
      case Some(k) => OccursShift(s, pat, k); Some(k + 1)
  }

  /** `Find` reports the leftmost occurrence, and reports none only when
      there is none. */
  lemma {:induction false} FindFirst(s: string, pat: string)
    requires |pat| > 0
    ensures Find(s, pat).Some? ==> forall k :: 0 <= k < Find(s, pat).value ==> !OccursAt(s, pat, k)
    ensures Find(s, pat).None? ==> forall k :: !OccursAt(s, pat, k)
    decreases |s|
  {
    if |s| < |pat| {
    } else if s[..|pat|] == pat {
    } else {
      FindFirst(s[1..], pat);
      assert !OccursAt(s, pat, 0) by { assert s[0..|pat|] == s[..|pat|]; }
      forall k | 1 <= k
        ensures OccursAt(s, pat, k) <==> OccursAt(s[1..], pat, k - 1)
      {
        OccursShift(s, pat, k - 1);
      }
    }
  }

  /** A single-character pattern occurs exactly where that character does. */
  lemma OccursAtChar(s: string, c: char, k: int)
    ensures OccursAt(s, [c], k) <==> 0 <= k < |s| && s[k] == c
  {
    if 0 <= k < |s| {
      assert s[k..k + 1] == [s[k]];
    }
  }

  /** When the first character of `pat` is not in `x`, the first
      occurrence of `pat` in `x + pat + y` is the one right after `x`. */
  lemma FindAfterNoChar(x: string, pat: string, y: string)
    requires |pat| > 0 && pat[0] !in x
    ensures Find(x + pat + y, pat) == Some(|x|)
  {
    var s := x + pat + y;
    assert s[|x|..|x| + |pat|] == pat;
    assert OccursAt(s, pat, |x|);
    forall k | 0 <= k < |x| ensures !OccursAt(s, pat, k) {
      assert s[k] == x[k];
    }
    FindFirst(s, pat);
    var r := Find(s, pat);
    assert r.Some?;
    assert !(r.value < |x|);
    assert !(r.value > |x|);
  }

  // ---------------------------------------------------------------- split and join

  /** Python's `s.split(sep)`: the pieces between the non-overlapping
      occurrences of `sep`, found from the left. */
  function Split(s: string, sep: string): (parts: seq<string>)
    requires |sep| > 0
    ensures |parts| >= 1
    ensures StartsWith(s, sep) ==> |parts| >= 2 && parts[0] == []
    decreases |s|
  {
    match Find(s, sep)
    case None => [s]
    case Some(i) => [s[..i]] + Split(s[i + |sep|..], sep)
  }

  /** Python's `sep.join(parts)`. */
  function Join(parts: seq<string>, sep: string): string
  {
    if |parts| == 0 then []
    else if |parts| == 1 then parts[0]
    else parts[0] + sep + Join(parts[1..], sep)
  }

  /** Splitting and joining again with the same separator gives back the text. */
  lemma {:induction false} JoinSplit(s: string, sep: string)
    requires |sep| > 0
    ensures Join(Split(s, sep), sep) == s
    decreases |s|
  {
    match Find(s, sep)
    case None =>
      SplitNone(s, sep);
    case Some(i) =>
      var rest := s[i + |sep|..];
      JoinSplit(rest, sep);
      SplitAt(s, sep, i);
      JoinCons(s[..i], Split(rest, sep), sep);
      assert s[i..i + |sep|] == sep;
      assert s == s[..i] + sep + rest;
  }

  /** Text without the separator is a single part. */
  lemma SplitNone(s: string, sep: string)
    requires |sep| > 0 && Find(s, sep).None?
    ensures Split(s, sep) == [s]
  {
  }

  /** The first occurrence of a character `c` in `x + [c] + y`, when `x`
      holds none, is right after `x`. */
  lemma FindAfterPrefix(x: string, c: char, y: string)
    requires c !in x
    ensures Find(x + [c] + y, [c]) == Some(|x|)
  {
    var s := x + [c] + y;
    OccursAtChar(s, c, |x|);
    forall k | 0 <= k < |x| ensures !OccursAt(s, [c], k) {
      OccursAtChar(s, c, k);
      assert s[k] == x[k];
    }
    FindFirst(s, [c]);
    var r := Find(s, [c]);
    assert r.Some?;
    assert !(r.value < |x|);
    assert !(r.value > |x|);
  }

  lemma SplitAt(s: string, sep: string, i: nat)
    requires |sep| > 0 && Find(s, sep) == Some(i)
    ensures Split(s, sep) == [s[..i]] + Split(s[i + |sep|..], sep)
  {
  }

  lemma JoinCons(x: string, tail: seq<string>, sep: string)
    requires |tail| >= 1
    ensures Join([x] + tail, sep) == x + sep + Join(tail, sep)
  {
    assert ([x] + tail)[1..] == tail;
  }

  /** Splitting on `c` recovers parts joined by `c` when no part holds `c`. */
  lemma {:induction false} SplitCharJoin(parts: seq<string>, c: char)
    requires |parts| >= 1
    requires forall i :: 0 <= i < |parts| ==> c !in parts[i]
    ensures Split(Join(parts, [c]), [c]) == parts
    decreases |parts|
  {
    if |parts| == 1 {
      var s := parts[0];
      match Find(s, [c])
      case None =>
      case Some(i) =>
        OccursAtChar(s, c, i);
        assert false;
    } else {
      var head, tail := parts[0], parts[1..];
      assert parts == [head] + tail;
      assert forall i :: 0 <= i < |tail| ==> c !in tail[i] by {
        forall i | 0 <= i < |tail| ensures c !in tail[i] {
          assert tail[i] == parts[i + 1];
        }
      }
      SplitCharJoin(tail, c);
      JoinCons(head, tail, [c]);
      SplitAfterChar(head, c, Join(tail, [c]));
    }
  }

  /** The text before the first `pat`, when it holds no `pat[0]`, is split
      off first. */
  lemma SplitAfterPattern(x: string, pat: string, y: string)
    requires |pat| > 0 && pat[0] !in x
    ensures Split(x + pat + y, pat) == [x] + Split(y, pat)
  {
    var s := x + pat + y;
    FindAfterNoChar(x, pat, y);
    SplitAt(s, pat, |x|);
    assert s[..|x|] == x;
    assert s[|x| + |pat|..] == y;
  }

  /** Between a leading `pat` and the next one lies the second part. */
  lemma SecondPart(body: string, pat: string, rest: string)
    requires |pat| > 0 && pat[0] !in body
    ensures |Split(pat + body + pat + rest, pat)| >= 2
    ensures Split(pat + body + pat + rest, pat)[1] == body
  {
    var tail := body + pat + rest;
    assert pat + body + pat + rest == [] + pat + tail;
    SplitAfterPattern([], pat, tail);
    SplitAfterPattern(body, pat, rest);
  }

  /** The text before the first `c` is split off first. */
  lemma SplitAfterChar(x: string, c: char, y: string)
    requires c !in x
    ensures Split(x + [c] + y, [c]) == [x] + Split(y, [c])
  {
    var s := x + [c] + y;
    FindAfterPrefix(x, c, y);
    SplitAt(s, [c], |x|);
    assert s[..|x|] == x;
    assert s[|x| + 1..] == y;
  }

  // ---------------------------------------------------------------- replace

  /** Python's `s.replace(pat, "")`: occurrences of `pat` are removed in
      one left-to-right scan, without overlaps. */
  function Erase(s: string, pat: string): string
    requires |pat| > 0
    decreases |s|
  {
    if |s| < |pat| then s
    else if s[..|pat|] == pat then Erase(s[|pat|..], pat)
    else [s[0]] + Erase(s[1..], pat)
  }

  /** When `s` does not start with `pat`, the search result for `s` is
      the one for `s[1..]`, one place further on. */
  lemma FindStep(s: string, pat: string)
    requires |pat| > 0 && |s| >= |pat| && s[..|pat|] != pat
    ensures Find(s[1..], pat).None? ==> Find(s, pat).None?
    ensures Find(s[1..], pat).Some? ==> Find(s, pat) == Some(Find(s[1..], pat).value + 1)
  {
  }

  lemma EraseUnfold(s: string, pat: string)
    requires |pat| > 0 && |s| >= |pat| && s[..|pat|] != pat
    ensures Erase(s, pat) == [s[0]] + Erase(s[1..], pat)
  {
  }

  /** Joining the pieces without a separator, when `pat` is first found at `k`. */
  lemma JoinSplitAt(s: string, pat: string, k: nat)
    requires |pat| > 0 && Find(s, pat) == Some(k)
    ensures Join(Split(s, pat), []) == s[..k] + Join(Split(s[k + |pat|..], pat), [])
  {
    SplitAt(s, pat, k);
    JoinCons(s[..k], Split(s[k + |pat|..], pat), []);
    assert s[..k] + [] == s[..k];
  }

  lemma EraseStepFound(s: string, pat: string, k: nat)
    requires |pat| > 0 && |s| >= |pat| && s[..|pat|] != pat
    requires Find(s[1..], pat) == Some(k)
    requires Erase(s[1..], pat) == Join(Split(s[1..], pat), [])
    ensures Erase(s, pat) == Join(Split(s, pat), [])
  {
    var t := s[1..];
    FindStep(s, pat);
    JoinSplitAt(t, pat, k);
    JoinSplitAt(s, pat, k + 1);
    EraseUnfold(s, pat);
    assert t[k + |pat|..] == s[k + 1 + |pat|..];
    HeadSlice(s, k);
    ConsConcat(s[0], t[..k], s[..k + 1], Join(Split(s[k + 1 + |pat|..], pat), []));
  }

  lemma HeadSlice(s: string, k: nat)
    requires k < |s|
    ensures [s[0]] + s[1..][..k] == s[..k + 1]
  {
  }

  lemma ConsConcat(c: char, a: string, h: string, j: string)
    requires [c] + a == h
    ensures [c] + (a + j) == h + j
  {
    assert [c] + (a + j) == ([c] + a) + j;
  }

  lemma EraseStep(s: string, pat: string)
    requires |pat| > 0 && |s| >= |pat| && s[..|pat|] != pat
    requires Erase(s[1..], pat) == Join(Split(s[1..], pat), [])
    ensures Erase(s, pat) == Join(Split(s, pat), [])
  {
    var t := s[1..];
    FindStep(s, pat);
    match Find(t, pat)
    case None =>
      EraseUnfold(s, pat);
      SplitNone(s, pat);
      SplitNone(t, pat);
      assert [s[0]] + t == s;
    case Some(k) =>
      EraseStepFound(s, pat, k);
  }

  /** For a non-empty `old`, Python's `s.replace(old, new)` agrees with
      `new.join(s.split(old))`; the scan above agrees with that form too. */
  lemma {:induction false} EraseIsJoinOfSplit(s: string, pat: string)
    requires |pat| > 0
    ensures Erase(s, pat) == Join(Split(s, pat), [])
    decreases |s|
  {
    if |s| < |pat| {
      assert Find(s, pat) == None;
    } else if s[..|pat|] == pat {
      var t := s[|pat|..];
      EraseIsJoinOfSplit(t, pat);
      SplitAt(s, pat, 0);
      JoinCons([], Split(t, pat), []);
    } else {
      EraseIsJoinOfSplit(s[1..], pat);
      EraseStep(s, pat);
    }
  }

  /** Erasing a pattern whose first character does not occur changes nothing. */
  lemma {:induction false} EraseNoChar(s: string, pat: string)
    requires |pat| > 0 && pat[0] !in s
    ensures Erase(s, pat) == s
    decreases |s|
  {
    if |s| >= |pat| {
      assert s[..|pat|][0] == s[0];
      EraseNoChar(s[1..], pat);
      assert [s[0]] + s[1..] == s;
    }
  }

  /** Erasing a pattern that does not occur changes nothing. */
  lemma EraseAbsent(s: string, pat: string)
    requires |pat| > 0
    requires forall k :: !OccursAt(s, pat, k)
    ensures Erase(s, pat) == s
  {
    EraseIsJoinOfSplit(s, pat);
    assert Find(s, pat).None?;
  }

  // ---------------------------------------------------------------- splitlines

  /** Index of the first line boundary character of `s`, if any. */
  function FirstBreak(s: string): (r: Option<nat>)
    ensures r.Some? ==> r.value < |s| && IsLineBreak(s[r.value]) && NoBreaks(s[..r.value])
    ensures r.None? ==> NoBreaks(s)
  {
    if |s| == 0 then None
    else if IsLineBreak(s[0]) then Some(0)
    else match FirstBreak(s[1..])
      case None => None
      case Some(k) =>
        assert s[..k + 1] == [s[0]] + s[1..][..k];
        Some(k + 1)
  }

  /** Python's `s.splitlines()`: lines without their terminators, "\r\n"
      taken as one terminator, and no empty last line after a final break. */
  function SplitLines(s: string): (lines: seq<string>)
    ensures forall i :: 0 <= i < |lines| ==> NoBreaks(lines[i])
    decreases |s|
  {
    match FirstBreak(s)
    case None => if s == [] then [] else [s]
    case Some(i) =>
      var width := if s[i] == '\r' && i + 1 < |s| && s[i + 1] == '\n' then 2 else 1;
      [s[..i]] + SplitLines(s[i + width..])
  }

  lemma FirstBreakAfter(x: string, y: string)
    requires NoBreaks(x)
    ensures FirstBreak(x + "\n" + y) == Some(|x|)
  {
    var s := x + "\n" + y;
    var r := FirstBreak(s);
    assert s[|x|] == '\n';
    assert r.Some?;
    assert !(r.value < |x|);
    assert !(r.value > |x|);
  }

  /** Lines joined by "\n" split back into the same lines, provided none
      holds a line boundary and the last is not empty. */
  lemma {:induction false} SplitLinesOfJoin(lines: seq<string>)
    requires forall i :: 0 <= i < |lines| ==> NoBreaks(lines[i])
    requires lines == [] || lines[|lines| - 1] != []
    ensures SplitLines(Join(lines, "\n")) == lines
    decreases |lines|
  {
    if |lines| == 1 {
      SplitLinesOfOne(lines[0]);
    } else if |lines| > 1 {
      var head, tail := lines[0], lines[1..];
      assert lines == [head] + tail;
      assert tail[|tail| - 1] == lines[|lines| - 1];
      assert forall i :: 0 <= i < |tail| ==> NoBreaks(tail[i]) by {
        forall i | 0 <= i < |tail| ensures NoBreaks(tail[i]) {
          assert tail[i] == lines[i + 1];
        }
      }
      SplitLinesOfJoin(tail);
      JoinCons(head, tail, "\n");
      SplitLinesAfter(head, Join(tail, "\n"));
    }
  }

  /** One non-empty line without a boundary is split into itself. */
  lemma SplitLinesOfOne(line: string)
    requires NoBreaks(line) && line != []
    ensures SplitLines(line) == [line]
  {
  }

  /** A line without a boundary followed by "\n" is split off first. */
  lemma SplitLinesAfter(x: string, y: string)
    requires NoBreaks(x)
    ensures SplitLines(x + "\n" + y) == [x] + SplitLines(y)
  {
    var s := x + "\n" + y;
    FirstBreakAfter(x, y);
    assert s[|x|] == '\n';
    assert s[..|x|] == x;
    assert s[|x| + 1..] == y;
  }

  /** A character found in no part and not in the separator is not in the join. */
  lemma {:induction false} JoinNoChar(parts: seq<string>, sep: string, c: char)
    requires c !in sep
    requires forall i :: 0 <= i < |parts| ==> c !in parts[i]
    ensures c !in Join(parts, sep)
    decreases |parts|
  {
    if |parts| > 1 {
      JoinNoChar(parts[1..], sep, c);
    }
  }

  /** The first piece of a split on `c` is the text before the first `c`. */
  lemma SplitFirstPart(x: string, c: char, y: string)
    requires c !in x
    ensures Split(x + [c] + y, [c])[0] == x
  {
    FindAfterPrefix(x, c, y);
    var s := x + [c] + y;
    SplitAt(s, [c], |x|);
    assert s[..|x|] == x;
  }

  /** A join starts with its first part and ends with its last part. */
  lemma {:induction false} JoinEdges(parts: seq<string>, sep: string)
    requires |parts| >= 1
    ensures StartsWith(Join(parts, sep), parts[0])
    ensures EndsWith(Join(parts, sep), parts[|parts| - 1])
    decreases |parts|
  {
    if |parts| > 1 {
      JoinEdges(parts[1..], sep);
      var j := Join(parts, sep);
      var t := Join(parts[1..], sep);
      assert j == parts[0] + sep + t;
      assert j[..|parts[0]|] == parts[0];
      assert j[|j| - |t|..] == t;
      var last := parts[|parts| - 1];
      assert t[|t| - |last|..] == last;
      assert j[|j| - |last|..] == t[|t| - |last|..];
    }
  }

  /** The first character of a join is that of its first part, and the
      last that of its last part. */
  lemma JoinEndChars(parts: seq<string>, sep: string)
    requires |parts| >= 1 && parts[0] != [] && parts[|parts| - 1] != []
    ensures Join(parts, sep) != []
    ensures Join(parts, sep)[0] == parts[0][0]
    ensures Join(parts, sep)[|Join(parts, sep)| - 1] == parts[|parts| - 1][|parts[|parts| - 1]| - 1]
  {
    JoinEdges(parts, sep);
    var j := Join(parts, sep);
    var first := parts[0];
    var last := parts[|parts| - 1];
    assert j[..|first|][0] == j[0];
    assert j[|j| - |last|..][|last| - 1] == j[|j| - 1];
  }
}
