/** The JavaScript string and array operations the chatbot relies on:
    `String.prototype.trim`, `split` on a literal separator, `join`,
    `startsWith`, and `filter`/`map` over arrays. */
module Strings {

  /** The WhiteSpace and LineTerminator code points of ECMAScript: exactly
      the characters `trim` removes from both ends of a string. */
  predicate IsWhitespace(c: char) {
    || c == '\t' || c == '\n' || c == '\U{B}' || c == '\U{C}' || c == '\r' || c == ' '
    || c == '\U{A0}' || c == '\U{1680}' || ('\U{2000}' <= c <= '\U{200A}')
    || c == '\U{2028}' || c == '\U{2029}' || c == '\U{202F}' || c == '\U{205F}'
    || c == '\U{3000}' || c == '\U{FEFF}'
  }

  /** Every character is whitespace (the empty string is blank). */
  predicate Blank(s: string) {
    forall i :: 0 <= i < |s| ==> IsWhitespace(s[i])
  }

  /** The negation, as a function value for `Filter`. */
  predicate NotBlank(s: string) {
    !Blank(s)
  }

  predicate NonEmpty(s: string) {
    s != ""
  }

  /** Drops leading whitespace: the result is a suffix of `s` and what was
      dropped is blank. */
  function TrimStart(s: string): (r: string)
    ensures |r| <= |s| && r == s[|s| - |r|..]
    ensures Blank(s[..|s| - |r|])
    ensures r == [] || !IsWhitespace(r[0])
    decreases |s|
  {
    if |s| > 0 && IsWhitespace(s[0]) then TrimStart(s[1..]) else s
  }

  /** Drops trailing whitespace: the result is a prefix of `s` and what was
      dropped is blank. */
  function TrimEnd(s: string): (r: string)
    ensures |r| <= |s| && r == s[..|r|]
    ensures Blank(s[|r|..])
    ensures r == [] || !IsWhitespace(r[|r| - 1])
    decreases |s|
  {
    if |s| > 0 && IsWhitespace(s[|s| - 1]) then TrimEnd(s[..|s| - 1]) else s
  }

  /** `s.trim()`: a contiguous slice of `s` with only whitespace on either
      side of it, starting and ending with non-whitespace. */
  function Trim(s: string): (r: string)
    ensures r == [] <==> Blank(s)
    ensures r != [] ==> !IsWhitespace(r[0]) && !IsWhitespace(r[|r| - 1])
    ensures exists i :: BlankAround(s, r, i)
    ensures forall c :: c in r ==> c in s
  {
    var t := TrimStart(s);
    var r := TrimEnd(t);
    TrimEmptyIffBlank(s, t, r);
    TrimSlice(s, t, r);
    TrimWithin(s, t, r);
    r
  }

  /** `r` occurs in `s` at position `i` with only whitespace before and
      after it. */
  predicate BlankAround(s: string, r: string, i: int) {
    0 <= i <= |s| - |r| && r == s[i..i + |r|] && Blank(s[..i]) && Blank(s[i + |r|..])
  }

  /** The trimmed text sits in `s` right after the leading whitespace. */
  lemma TrimSlice(s: string, t: string, r: string)
    requires |t| <= |s| && t == s[|s| - |t|..] && Blank(s[..|s| - |t|])
    requires |r| <= |t| && r == t[..|r|] && Blank(t[|r|..])
    ensures exists i :: BlankAround(s, r, i)
  {
    var i := |s| - |t|;
    assert s[i..i + |r|] == t[..|r|];
    assert s[i + |r|..] == t[|r|..];
    assert BlankAround(s, r, i);
  }

  lemma TrimWithin(s: string, t: string, r: string)
    requires |t| <= |s| && t == s[|s| - |t|..]
    requires |r| <= |t| && r == t[..|r|]
    ensures forall c :: c in r ==> c in s
  {
    var k := |s| - |t|;
    forall c | c in r ensures c in s {
      var i :| 0 <= i < |r| && r[i] == c;
      assert s[k + i] == c;
    }
  }

  lemma TrimEmptyIffBlank(s: string, t: string, r: string)
    requires |t| <= |s| && t == s[|s| - |t|..] && Blank(s[..|s| - |t|])
    requires t == [] || !IsWhitespace(t[0])
    requires |r| <= |t| && r == t[..|r|] && Blank(t[|r|..])
    ensures r == [] <==> Blank(s)
  {
    var k := |s| - |t|;
    assert s == s[..k] + t;
    BlankConcat(s[..k], t);
    if r == [] {
      assert t[|r|..] == t;
    }
  }

  /** Trim is determined by its defining property: whatever blank text
      surrounds a core that starts and ends with non-whitespace is removed,
      and nothing else. */
  lemma {:induction false} TrimUnique(a: string, m: string, b: string)
    requires Blank(a) && Blank(b)
    requires m == [] || (!IsWhitespace(m[0]) && !IsWhitespace(m[|m| - 1]))
    ensures Trim(a + m + b) == m
  {
    assert a + m + b == a + (m + b);
    if m == [] {
      assert m + b == b;
      TrimStartDrops(a, b);
      assert TrimStart(a + m + b) == [];
    } else {
      assert (m + b)[0] == m[0];
      TrimStartDrops(a, m + b);
      assert TrimStart(a + m + b) == m + b;
      TrimEndDrops(m, b);
    }
  }

  lemma {:induction false} TrimStartDrops(a: string, t: string)
    requires Blank(a)
    requires t == [] || !IsWhitespace(t[0]) || Blank(t)
    ensures Blank(t) ==> TrimStart(a + t) == []
    ensures !Blank(t) ==> TrimStart(a + t) == t
    decreases |a| + |t|
  {
    if |a| > 0 {
      assert (a + t)[1..] == a[1..] + t;
      TrimStartDrops(a[1..], t);
    } else {
      assert a + t == t;
      if Blank(t) && t != [] {
        assert (a + t)[1..] == t[1..];
        TrimStartDrops([], t[1..]);
        assert [] + t[1..] == t[1..];
      }
    }
  }

  lemma {:induction false} TrimEndDrops(m: string, b: string)
    requires m != [] && !IsWhitespace(m[|m| - 1])
    requires Blank(b)
    ensures TrimEnd(m + b) == m
    decreases |b|
  {
    if |b| > 0 {
      assert (m + b)[..|m + b| - 1] == m + b[..|b| - 1];
      TrimEndDrops(m, b[..|b| - 1]);
    } else {
      assert m + b == m;
    }
  }

  /** Trimming a trimmed string changes nothing. */
  lemma TrimIdempotent(s: string)
    ensures Trim(Trim(s)) == Trim(s)
  {
    var r := Trim(s);
    TrimUnique([], r, []);
    assert [] + r + [] == r;
  }

  /** `s.startsWith(prefix)`. */
  predicate StartsWith(s: string, prefix: string) {
    |prefix| <= |s| && s[..|prefix|] == prefix
  }

  /** A string starts with each of its prefixes, and what follows the
      prefix is the rest. */
  lemma StartsWithAppend(a: string, b: string)
    ensures StartsWith(a + b, a) && (a + b)[|a|..] == b
  {
    assert (a + b)[..|a|] == a;
  }

  /** `parts.join(sep)`. */
  function Join(parts: seq<string>, sep: string): string
    decreases |parts|
  {
    if |parts| == 0 then ""
    else if |parts| == 1 then parts[0]
    else parts[0] + sep + Join(parts[1..], sep)
  }

  /** The scan behind `s.split(sep)`: `cur` is the part read so far; at
      each position the leftmost occurrence of `sep` closes the part. */
  function SplitFrom(s: string, sep: string, cur: string): (parts: seq<string>)
    requires |sep| > 0
    ensures |parts| >= 1
    ensures Join(parts, sep) == cur + s
    ensures |sep| == 1 && sep[0] !in cur ==> forall k :: 0 <= k < |parts| ==> sep[0] !in parts[k]
    decreases |s|
  {
    if |s| == 0 then [cur]
    else if StartsWith(s, sep) then
      var rest := SplitFrom(s[|sep|..], sep, "");
      assert s == sep + s[|sep|..];
      [cur] + rest
    else
      assert cur + [s[0]] + s[1..] == cur + s;
      SplitFrom(s[1..], sep, cur + [s[0]])
  }

  /** `s.split(sep)` for a non-empty literal separator: the parts join
      back to `s`, no part holds an occurrence of `sep`, and each
      separator taken is the leftmost one after its part. */
  function SplitOn(s: string, sep: string): (parts: seq<string>)
    requires |sep| > 0
    ensures |parts| >= 1
    ensures Join(parts, sep) == s
    ensures CutLeftmost(parts, sep)
  {
    assert "" + s == s;
    SplitFromLeftmost(s, sep, "");
    SplitFrom(s, sep, "")
  }

  /** Every part holds no occurrence of `sep`, and every part but the
      last is cut at the leftmost occurrence after it. */
  predicate CutLeftmost(parts: seq<string>, sep: string) {
    && (forall k :: 0 <= k < |parts| ==> NoMatchBefore(parts[k], sep, |parts[k]| + 1))
    && (forall k :: 0 <= k < |parts| - 1 ==> NoMatchBefore(parts[k] + sep, sep, |parts[k]|))
  }

  /** Each part the scan closes is cut at the leftmost occurrence of the
      separator, provided none starts inside the part read so far. */
  lemma {:induction false} SplitFromLeftmost(s: string, sep: string, cur: string)
    requires |sep| > 0
    requires NoMatchBefore(cur + s, sep, |cur|)
    ensures CutLeftmost(SplitFrom(s, sep, cur), sep)
    decreases |s|
  {
    if |s| == 0 {
      assert cur + s == cur;
      assert cur[|cur|..] == [];
      assert SplitFrom(s, sep, cur) == [cur];
    } else if StartsWith(s, sep) {
      var s' := s[|sep|..];
      SplitFromLeftmost(s', sep, "");
      NoMatchBeforePrefix(cur, s, sep, |cur|);
      assert cur[|cur|..] == [];
      assert s == sep + s';
      assert (cur + sep) + s' == cur + s;
      NoMatchBeforePrefix(cur + sep, s', sep, |cur|);
      var rest := SplitFrom(s', sep, "");
      var parts := [cur] + rest;
      assert SplitFrom(s, sep, cur) == parts;
      forall k | 0 <= k < |parts| ensures NoMatchBefore(parts[k], sep, |parts[k]| + 1) {
        if k > 0 { assert parts[k] == rest[k - 1]; }
      }
      forall k | 0 <= k < |parts| - 1 ensures NoMatchBefore(parts[k] + sep, sep, |parts[k]|) {
        if k > 0 { assert parts[k] == rest[k - 1]; }
      }
    } else {
      var cur' := cur + [s[0]];
      assert cur' + s[1..] == cur + s;
      assert (cur + s)[|cur|..] == s;
      SplitFromLeftmost(s[1..], sep, cur');
      assert SplitFrom(s, sep, cur) == SplitFrom(s[1..], sep, cur');
    }
  }

  /** An occurrence in a prefix is an occurrence in the whole. */
  lemma NoMatchBeforePrefix(x: string, y: string, sep: string, n: nat)
    requires n <= |x| && NoMatchBefore(x + y, sep, n)
    ensures NoMatchBefore(x, sep, n)
  {
    forall i | 0 <= i < n && i <= |x| ensures !StartsWith(x[i..], sep) {
      assert (x + y)[i..] == x[i..] + y;
    }
  }

  /** No occurrence of `sep` starts in `s` before position `n`. */
  predicate NoMatchBefore(s: string, sep: string, n: nat) {
    forall i :: 0 <= i < n && i <= |s| ==> !StartsWith(s[i..], sep)
  }

  /** Text before the first separator occurrence accumulates into the
      current part. */
  lemma {:induction false} SplitFromSkips(p: string, t: string, sep: string, cur: string)
    requires |sep| > 0
    requires NoMatchBefore(p + t, sep, |p|)
    ensures SplitFrom(p + t, sep, cur) == SplitFrom(t, sep, cur + p)
    decreases |p|
  {
    if |p| > 0 {
      var s := p + t;
      assert s[0..] == s;
      assert !StartsWith(s, sep);
      assert s[1..] == p[1..] + t;
      forall i | 0 <= i < |p| - 1 && i <= |s[1..]|
        ensures !StartsWith(s[1..][i..], sep)
      {
        assert s[1..][i..] == s[i + 1..];
      }
      SplitFromSkips(p[1..], t, sep, cur + [p[0]]);
      assert cur + [p[0]] + p[1..] == cur + p;
    } else {
      assert p + t == t;
      assert cur + p == cur;
    }
  }

  /** A part followed by the separator splits off as one part. */
  lemma SplitFromPart(p: string, rest: string, sep: string)
    requires |sep| > 0
    requires NoMatchBefore(p + sep + rest, sep, |p|)
    ensures SplitFrom(p + sep + rest, sep, "") == [p] + SplitFrom(rest, sep, "")
  {
    assert p + sep + rest == p + (sep + rest);
    SplitFromSkips(p, sep + rest, sep, "");
    assert "" + p == p;
    assert StartsWith(sep + rest, sep);
    assert (sep + rest)[|sep|..] == rest;
  }

  /** A part with no separator occurrence is the whole split. */
  lemma SplitFromLast(p: string, sep: string)
    requires |sep| > 0
    requires NoMatchBefore(p, sep, |p|)
    ensures SplitFrom(p, sep, "") == [p]
  {
    assert p + "" == p;
    SplitFromSkips(p, "", sep, "");
    assert "" + p == p;
  }

  /** A part that never contains the separator's first character cannot
      hold the start of an occurrence. */
  lemma NoFirstCharNoMatch(p: string, t: string, sep: string)
    requires |sep| > 0 && sep[0] !in p
    ensures NoMatchBefore(p + t, sep, |p|)
  {
    forall i | 0 <= i < |p| && i <= |p + t|
      ensures !StartsWith((p + t)[i..], sep)
    {
      assert (p + t)[i..][0] == p[i];
    }
  }

  /** Split inverts join when no part contains the separator's first
      character. */
  lemma {:induction false} SplitJoin(parts: seq<string>, sep: string)
    requires |sep| > 0 && |parts| >= 1
    requires forall k :: 0 <= k < |parts| ==> sep[0] !in parts[k]
    ensures SplitOn(Join(parts, sep), sep) == parts
    decreases |parts|
  {
    if |parts| == 1 {
      NoFirstCharNoMatch(parts[0], "", sep);
      assert parts[0] + "" == parts[0];
      SplitFromLast(parts[0], sep);
    } else {
      var rest := Join(parts[1..], sep);
      NoFirstCharNoMatch(parts[0], sep + rest, sep);
      assert parts[0] + sep + rest == parts[0] + (sep + rest);
      SplitFromPart(parts[0], rest, sep);
      SplitJoin(parts[1..], sep);
      assert parts == [parts[0]] + parts[1..];
    }
  }

  /** With a blank separator, a join is blank exactly when every part is. */
  lemma {:induction false} BlankJoin(parts: seq<string>, sep: string)
    requires Blank(sep)
    ensures Blank(Join(parts, sep)) <==> forall k :: 0 <= k < |parts| ==> Blank(parts[k])
    decreases |parts|
  {
    if |parts| > 1 {
      BlankJoin(parts[1..], sep);
      var j := Join(parts, sep);
      var rest := Join(parts[1..], sep);
      assert j == parts[0] + sep + rest;
      BlankConcat(parts[0], sep);
      BlankConcat(parts[0] + sep, rest);
      if Blank(parts[0]) && forall k :: 0 <= k < |parts[1..]| ==> Blank(parts[1..][k]) {
        forall k | 0 <= k < |parts| ensures Blank(parts[k]) {
          if k > 0 { assert parts[k] == parts[1..][k - 1]; }
        }
      }
      if forall k :: 0 <= k < |parts| ==> Blank(parts[k]) {
        forall k | 0 <= k < |parts[1..]| ensures Blank(parts[1..][k]) {
          assert parts[1..][k] == parts[k + 1];
        }
      }
    }
  }

  lemma BlankConcat(a: string, b: string)
    ensures Blank(a + b) <==> Blank(a) && Blank(b)
  {
    if Blank(a) && Blank(b) {
      forall i | 0 <= i < |a + b| ensures IsWhitespace((a + b)[i]) {
        if i >= |a| { assert (a + b)[i] == b[i - |a|]; }
      }
    }
    if Blank(a + b) {
      forall i | 0 <= i < |a| ensures IsWhitespace(a[i]) {
        assert (a + b)[i] == a[i];
      }
      forall i | 0 <= i < |b| ensures IsWhitespace(b[i]) {
        assert (a + b)[|a| + i] == b[i];
      }
    }
  }

  /** A join starts with its first part and ends with its last one. */
  lemma {:induction false} JoinEnds(parts: seq<string>, sep: string)
    requires |parts| >= 1
    ensures StartsWith(Join(parts, sep), parts[0])
    ensures EndsWith(Join(parts, sep), parts[|parts| - 1])
    decreases |parts|
  {
    if |parts| > 1 {
      JoinEnds(parts[1..], sep);
      var j := Join(parts, sep);
      var rest := Join(parts[1..], sep);
      var last := parts[|parts| - 1];
      assert j == parts[0] + (sep + rest);
      assert parts[1..][|parts[1..]| - 1] == last;
      assert rest == rest[..|rest| - |last|] + last;
      assert j == (parts[0] + sep + rest[..|rest| - |last|]) + last;
    }
  }

  lemma BoundaryChars(s: string, first: string, last: string)
    requires first != "" && last != ""
    requires StartsWith(s, first) && EndsWith(s, last)
    ensures s[0] == first[0] && s[|s| - 1] == last[|last| - 1]
  {
    assert s[..|first|][0] == s[0];
    assert s[|s| - |last|..][|last| - 1] == s[|s| - 1];
  }

  /** `s.endsWith(suffix)`. */
  predicate EndsWith(s: string, suffix: string) {
    |suffix| <= |s| && s[|s| - |suffix|..] == suffix
  }

  /** The elements of `xs` that satisfy `p`, in order (`xs.filter(p)`). */
  function Filter<T>(p: T -> bool, xs: seq<T>): (r: seq<T>)
    ensures |r| <= |xs|
    ensures forall i :: 0 <= i < |r| ==> p(r[i]) && r[i] in xs
    ensures forall i :: 0 <= i < |xs| && p(xs[i]) ==> xs[i] in r
    decreases |xs|
  {
    if |xs| == 0 then []
    else if p(xs[0]) then [xs[0]] + Filter(p, xs[1..])
    else Filter(p, xs[1..])
  }

  /** Filtering distributes over concatenation; with the one-element case
      this pins `Filter` down completely. */
  lemma {:induction false} FilterAppend<T>(p: T -> bool, xs: seq<T>, ys: seq<T>)
    ensures Filter(p, xs + ys) == Filter(p, xs) + Filter(p, ys)
    decreases |xs|
  {
    if |xs| > 0 {
      assert (xs + ys)[1..] == xs[1..] + ys;
      FilterAppend(p, xs[1..], ys);
    } else {
      assert xs + ys == ys;
    }
  }

  /** Filtering a sequence whose elements all pass keeps it whole. */
  lemma {:induction false} FilterAll<T>(p: T -> bool, xs: seq<T>)
    requires forall i :: 0 <= i < |xs| ==> p(xs[i])
    ensures Filter(p, xs) == xs
    decreases |xs|
  {
    if |xs| > 0 {
      FilterAll(p, xs[1..]);
      assert xs == [xs[0]] + xs[1..];
    }
  }

  /** `xs.map(f)`. */
  function Map<A, B>(f: A -> B, xs: seq<A>): (r: seq<B>)
    ensures |r| == |xs|
    ensures forall i :: 0 <= i < |xs| ==> r[i] == f(xs[i])
  {
    seq(|xs|, i requires 0 <= i < |xs| => f(xs[i]))
  }

  lemma MapAppend<A, B>(f: A -> B, xs: seq<A>, ys: seq<A>)
    ensures Map(f, xs + ys) == Map(f, xs) + Map(f, ys)
  {
  }

  lemma MapSlice<A, B>(f: A -> B, xs: seq<A>, i: nat)
    requires i <= |xs|
    ensures Map(f, xs)[i..] == Map(f, xs[i..])
  {
  }

  /** Mapping then filtering equals filtering then mapping, when the two
      tests agree through `f`. */
  lemma {:induction false} FilterMapSwap<A, B>(f: A -> B, p: B -> bool, q: A -> bool, xs: seq<A>)
    requires forall x :: p(f(x)) <==> q(x)
    ensures Filter(p, Map(f, xs)) == Map(f, Filter(q, xs))
    decreases |xs|
  {
    if |xs| > 0 {
      FilterMapSwap(f, p, q, xs[1..]);
      MapSlice(f, xs, 1);
      if q(xs[0]) {
        MapAppend(f, [xs[0]], Filter(q, xs[1..]));
      }
    }
  }

  lemma MapIdentity<A>(f: A -> A, xs: seq<A>)
    requires forall i :: 0 <= i < |xs| ==> f(xs[i]) == xs[i]
    ensures Map(f, xs) == xs
  {
  }

  /** The strings of `xs` written one after another. */
  function Concat(xs: seq<string>): string
    decreases |xs|
  {
    if |xs| == 0 then "" else xs[0] + Concat(xs[1..])
  }

  lemma {:induction false} ConcatAppend(xs: seq<string>, ys: seq<string>)
    ensures Concat(xs + ys) == Concat(xs) + Concat(ys)
    decreases |xs|
  {
    if |xs| > 0 {
      assert (xs + ys)[1..] == xs[1..] + ys;
      ConcatAppend(xs[1..], ys);
    } else {
      assert xs + ys == ys;
    }
  }
}
