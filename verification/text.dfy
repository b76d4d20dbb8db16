/** Java string operations the core relies on, over `seq<char>`:
    `contains`, `indexOf`/`lastIndexOf`, `substring`, `toLowerCase` (ASCII),
    `trim`, `replace`, filtering by a character class, and line/field
    splitting and joining. */
module Text {
  import opened Wrappers

  /** `u` occurs as a contiguous block of `s` (Java's `String.contains`). */
  predicate Contains(s: string, u: string) {
    exists k :: 0 <= k <= |s| - |u| && u <= s[k..]
  }

  lemma ContainsAt(s: string, u: string, k: nat)
    requires k <= |s| && u <= s[k..]
    ensures Contains(s, u)
  {
  }

  /** Every character of an occurring block is a character of the text. */
  lemma ContainsChar(s: string, u: string, c: char)
    requires Contains(s, u) && c in u
    ensures c in s
  {
    var k :| 0 <= k <= |s| - |u| && u <= s[k..];
    var j :| 0 <= j < |u| && u[j] == c;
    assert s[k + j] == c;
  }

  lemma ContainsInSuffix(s: string, u: string, j: nat)
    requires j <= |s| && Contains(s[j..], u)
    ensures Contains(s, u)
  {
    var k :| 0 <= k <= |s[j..]| - |u| && u <= s[j..][k..];
    assert s[j..][k..] == s[j + k..];
  }

  lemma ContainsInPrefix(s: string, t: string, u: string)
    requires Contains(s, u)
    ensures Contains(s + t, u)
  {
    var k :| 0 <= k <= |s| - |u| && u <= s[k..];
    assert (s + t)[k..] == s[k..] + t;
  }

  /** `Contains` is monotone in the text. */
  lemma ContainsTransitive(s: string, t: string, u: string)
    requires Contains(s, t) && Contains(t, u)
    ensures Contains(s, u)
  {
    var k :| 0 <= k <= |s| - |t| && t <= s[k..];
    var j :| 0 <= j <= |t| - |u| && u <= t[j..];
    assert forall m :: 0 <= m < |u| ==> u[m] == t[j + m] == s[k + j + m];
    assert u <= s[k + j..];
    ContainsAt(s, u, k + j);
  }

  /** Java's `indexOf(char)`: the first position of `c`, or -1. */
  function IndexOf(s: string, c: char): (r: int)
    ensures -1 <= r < |s|
    ensures r == -1 <==> c !in s
    ensures r >= 0 ==> s[r] == c && forall j :: 0 <= j < r ==> s[j] != c
  {
    if |s| == 0 then -1
    else if s[0] == c then 0
    else
      var i := IndexOf(s[1..], c);
      assert s == [s[0]] + s[1..];
      if i == -1 then -1 else i + 1
  }

  /** Java's `lastIndexOf(char)`: the last position of `c`, or -1. */
  function LastIndexOf(s: string, c: char): (r: int)
    ensures -1 <= r < |s|
    ensures r == -1 <==> c !in s
    ensures r >= 0 ==> s[r] == c && forall j :: r < j < |s| ==> s[j] != c
  {
    if |s| == 0 then -1
    else if s[|s| - 1] == c then |s| - 1
    else
      var init := s[..|s| - 1];
      var i := LastIndexOf(init, c);
      assert s == init + [s[|s| - 1]];
      i
  }

  lemma IndexOfAfterPrefix(a: string, c: char, b: string)
    requires c !in a
    ensures IndexOf(a + [c] + b, c) == |a|
  {
    var s := a + [c] + b;
    var r := IndexOf(s, c);
    assert s[|a|] == c;
    assert forall j :: 0 <= j < |a| ==> s[j] == a[j] && s[j] != c;
  }

  lemma {:induction false} LastIndexOfBeforeSuffix(a: string, c: char, b: string)
    requires c !in b
    ensures LastIndexOf(a + [c] + b, c) == |a|
    decreases |b|
  {
    var s := a + [c] + b;
    if |b| > 0 {
      var b' := b[..|b| - 1];
      assert s[|s| - 1] == b[|b| - 1];
      assert s[..|s| - 1] == a + [c] + b';
      LastIndexOfBeforeSuffix(a, c, b');
    }
  }

  /** Java's `substring(begin, end)`, which throws unless
      0 <= begin <= end <= length. */
  function Substring(s: string, begin: int, end: int): (r: Result<string>)
    ensures r.Ok? <==> 0 <= begin <= end <= |s|
    ensures r.Ok? ==> |r.value| == end - begin
    ensures r.Ok? ==> forall i :: 0 <= i < |r.value| ==> r.value[i] == s[begin + i]
  {
    if 0 <= begin <= end <= |s| then Ok(s[begin..end]) else Err(IndexOutOfBounds)
  }

  /** `toLowerCase` on the ASCII letters. */
  function LowerChar(c: char): char {
    if 'A' <= c <= 'Z' then (c as int + 32) as char else c
  }

  predicate IsLowerCase(s: string) {
    forall i :: 0 <= i < |s| ==> !('A' <= s[i] <= 'Z')
  }

  function Lower(s: string): (r: string)
    ensures |r| == |s|
    ensures forall i :: 0 <= i < |s| ==> r[i] == LowerChar(s[i])
  {
    seq(|s|, i requires 0 <= i < |s| => LowerChar(s[i]))
  }

  /** Lower-casing leaves no upper-case letter, and changes exactly the
      texts that have one. */
  lemma LowerProperties(s: string)
    ensures IsLowerCase(Lower(s))
    ensures Lower(s) == s <==> IsLowerCase(s)
    ensures Lower(Lower(s)) == Lower(s)
  {
    if !IsLowerCase(s) {
      var i :| 0 <= i < |s| && 'A' <= s[i] <= 'Z';
      assert Lower(s)[i] != s[i];
    }
  }

  lemma LowerAppend(a: string, b: string)
    ensures Lower(a + b) == Lower(a) + Lower(b)
  {
  }

  /** A total order-preserving selection: `a` is obtained from `b` by
      deleting elements. */
  predicate Subsequence<T(==)>(a: seq<T>, b: seq<T>)
    decreases |b|
  {
    |a| == 0 ||
    (|b| > 0 && ((a[0] == b[0] && Subsequence(a[1..], b[1..])) || Subsequence(a, b[1..])))
  }

  lemma {:induction false} SubsequenceReflexive<T>(a: seq<T>)
    ensures Subsequence(a, a)
    decreases |a|
  {
    if |a| > 0 {
      SubsequenceReflexive(a[1..]);
    }
  }

  /** The elements of `xs` that satisfy `p`, in order. This is Java's
      `replaceAll("[^...]", "")` over a character class, and a stream
      `filter` over a list. */
  function Filter<T(==,!new)>(xs: seq<T>, p: T -> bool): (r: seq<T>)
    ensures |r| <= |xs|
    ensures forall i :: 0 <= i < |r| ==> p(r[i])
    ensures forall x :: x in r <==> x in xs && p(x)
    ensures forall x :: multiset(r)[x] == if p(x) then multiset(xs)[x] else 0
    ensures Subsequence(r, xs)
  {
    if |xs| == 0 then []
    else
      assert xs == [xs[0]] + xs[1..];
      var rest := Filter(xs[1..], p);
      if p(xs[0]) then
        var r := [xs[0]] + rest;
        assert r[1..] == rest;
        r
      else
        rest
  }

  lemma FilterCons<T(!new)>(x: T, xs: seq<T>, p: T -> bool)
    ensures Filter([x] + xs, p) == if p(x) then [x] + Filter(xs, p) else Filter(xs, p)
  {
    assert ([x] + xs)[1..] == xs;
  }

  /** How many elements of `xs` satisfy `p`. */
  function Count<T>(xs: seq<T>, p: T -> bool): nat
  {
    if |xs| == 0 then 0 else (if p(xs[0]) then 1 else 0) + Count(xs[1..], p)
  }

  /** Filtering keeps exactly as many elements as satisfy the predicate;
      together with `Subsequence` and every kept element satisfying `p`,
      this pins the filtered sequence down. */
  lemma {:induction false} FilterCount<T(!new)>(xs: seq<T>, p: T -> bool)
    ensures |Filter(xs, p)| == Count(xs, p)
  {
    if |xs| > 0 {
      assert xs == [xs[0]] + xs[1..];
      FilterCons(xs[0], xs[1..], p);
      FilterCount(xs[1..], p);
    }
  }

  /** A sequence whose every element passes loses nothing. */
  lemma {:induction false} FilterKeepsAll<T(!new)>(xs: seq<T>, p: T -> bool)
    requires forall i :: 0 <= i < |xs| ==> p(xs[i])
    ensures Filter(xs, p) == xs
  {
    if |xs| > 0 {
      var tail := xs[1..];
      assert xs == [xs[0]] + tail;
      assert forall i :: 0 <= i < |tail| ==> p(tail[i]) by {
        assert forall i :: 0 <= i < |tail| ==> tail[i] == xs[i + 1];
      }
      FilterKeepsAll(tail, p);
      assert p(xs[0]);
    }
  }

  /** Filtering twice by the same class changes nothing more. */
  lemma FilterIdempotent<T(!new)>(xs: seq<T>, p: T -> bool)
    ensures Filter(Filter(xs, p), p) == Filter(xs, p)
  {
    FilterKeepsAll(Filter(xs, p), p);
  }

  /** Each line followed by a line feed, as a `StringBuilder` that appends
      `line + "\n"` produces. */
  function Unlines(lines: seq<string>): (r: string)
    ensures |lines| > 0 ==> |r| > 0 && r[|r| - 1] == '\n'
    ensures r == [] <==> |lines| == 0
  {
    if |lines| == 0 then [] else lines[0] + "\n" + Unlines(lines[1..])
  }

  /** A block occurring in one line occurs in the whole text. */
  lemma {:induction false} ContainsInUnlines(lines: seq<string>, i: nat, u: string)
    requires i < |lines| && Contains(lines[i], u)
    ensures Contains(Unlines(lines), u)
    decreases i
  {
    var head := lines[0] + "\n";
    assert Unlines(lines) == head + Unlines(lines[1..]);
    if i == 0 {
      ContainsInPrefix(lines[0], "\n", u);
      ContainsInPrefix(head, Unlines(lines[1..]), u);
    } else {
      ContainsInUnlines(lines[1..], i - 1, u);
      assert (head + Unlines(lines[1..]))[|head|..] == Unlines(lines[1..]);
      ContainsInSuffix(Unlines(lines), u, |head|);
    }
  }

  /** `String.join(sep, parts)`. */
  function Join(parts: seq<string>, sep: char): string {
    if |parts| == 0 then []
    else if |parts| == 1 then parts[0]
    else parts[0] + [sep] + Join(parts[1..], sep)
  }

  /** Splitting at every separator (Java's `split` with a negative limit). */
  function Split(s: string, sep: char): (r: seq<string>)
    ensures |r| > 0
    ensures forall i :: 0 <= i < |r| ==> sep !in r[i]
    decreases |s|
  {
    var i := IndexOf(s, sep);
    if i == -1 then [s] else [s[..i]] + Split(s[i + 1..], sep)
  }

  /** Joining parts that do not contain the separator and splitting the
      result gives the parts back. */
  lemma {:induction false} SplitJoin(parts: seq<string>, sep: char)
    requires |parts| > 0
    requires forall i :: 0 <= i < |parts| ==> sep !in parts[i]
    ensures Split(Join(parts, sep), sep) == parts
    decreases |parts|
  {
    if |parts| == 1 {
      assert IndexOf(parts[0], sep) == -1;
    } else {
      var head := parts[0];
      var rest := Join(parts[1..], sep);
      var s := head + [sep] + rest;
      assert Join(parts, sep) == s;
      IndexOfAfterPrefix(head, sep, rest);
      assert s[..|head|] == head;
      assert s[|head| + 1..] == rest;
      assert Split(s, sep) == [head] + Split(rest, sep);
      SplitJoin(parts[1..], sep);
      assert parts == [head] + parts[1..];
    }
  }

  lemma {:induction false} UnlinesIsJoin(lines: seq<string>)
    ensures Unlines(lines) == Join(lines + [[]], '\n')
    decreases |lines|
  {
    if |lines| > 0 {
      UnlinesIsJoin(lines[1..]);
      assert (lines + [[]])[1..] == lines[1..] + [[]];
    }
  }

  /** The lines of a text built with `Unlines`, when no line holds a line
      feed: the lines themselves, then the empty remainder after the last
      line feed. */
  lemma UnlinesSplit(lines: seq<string>)
    requires forall i :: 0 <= i < |lines| ==> '\n' !in lines[i]
    ensures Split(Unlines(lines), '\n') == lines + [[]]
  {
    UnlinesIsJoin(lines);
    SplitJoin(lines + [[]], '\n');
  }

  /** Java's `trim`: drop every leading and trailing character whose code
      is at most that of the space. */
  function TrimStart(s: string): (r: string)
    ensures |r| <= |s| && r == s[|s| - |r|..]
    ensures forall i :: 0 <= i < |s| - |r| ==> s[i] <= ' '
    ensures |r| > 0 ==> r[0] > ' '
  {
    if |s| > 0 && s[0] <= ' ' then TrimStart(s[1..]) else s
  }

  function TrimEnd(s: string): (r: string)
    ensures |r| <= |s| && r == s[..|r|]
    ensures forall i :: |r| <= i < |s| ==> s[i] <= ' '
    ensures |r| > 0 ==> r[|r| - 1] > ' '
  {
    if |s| > 0 && s[|s| - 1] <= ' ' then TrimEnd(s[..|s| - 1]) else s
  }

  function Trim(s: string): string {
    TrimEnd(TrimStart(s))
  }

  /** A text trims to nothing exactly when all its characters are blanks or
      control characters. */
  lemma TrimEmpty(s: string)
    ensures Trim(s) == [] <==> forall i :: 0 <= i < |s| ==> s[i] <= ' '
  {
    var t := TrimStart(s);
    assert forall i :: 0 <= i < |t| ==> t[i] == s[|s| - |t| + i];
  }

  /** Java's `String.replace(target, replacement)`: every occurrence of
      `t`, taken left to right without overlap, is replaced by `r`; an empty
      target puts `r` before every character and at the end. */
  function Replace(s: string, t: string, r: string): string
    decreases |s|
  {
    if |t| == 0 then InsertEverywhere(s, r)
    else if |s| == 0 then []
    else if t <= s then r + Replace(s[|t|..], t, r)
    else [s[0]] + Replace(s[1..], t, r)
  }

  function InsertEverywhere(s: string, r: string): string {
    if |s| == 0 then r else r + [s[0]] + InsertEverywhere(s[1..], r)
  }

  /** The mask written in place of a credential. */
  const Mask := "*****"

  /** Nothing but the mask character can start a match inside a mask, so a
      text free of `*` that prefixes the replaced text prefixes the original
      text. */
  lemma {:induction false} PrefixOfMasked(s: string, t: string, u: string)
    requires |t| > 0 && '*' !in u
    ensures u <= Replace(s, t, Mask) ==> u <= s
    decreases |s|
  {
    var m := Replace(s, t, Mask);
    if |s| == 0 || |u| == 0 {
    } else if t <= s {
      assert m[0] == '*';
      assert u[0] != '*';
    } else {
      var rest := Replace(s[1..], t, Mask);
      assert m == [s[0]] + rest;
      PrefixOfMasked(s[1..], t, u[1..]);
      if u <= m {
        assert u[1..] <= rest;
        assert u == [u[0]] + u[1..];
      }
    }
  }

  /** After masking, the target no longer occurs (it contains no `*`). */
  lemma {:induction false} MaskRemoves(s: string, t: string)
    requires |t| > 0 && '*' !in t
    ensures !Contains(Replace(s, t, Mask), t)
    decreases |s|
  {
    var m := Replace(s, t, Mask);
    if |s| == 0 {
    } else if t <= s {
      var rest := Replace(s[|t|..], t, Mask);
      MaskRemoves(s[|t|..], t);
      assert m == Mask + rest;
      forall k | 0 <= k <= |m| - |t| ensures !(t <= m[k..]) {
        if k < |Mask| {
          assert m[k..][0] == '*';
          assert t[0] != '*';
        } else {
          assert m[k..] == rest[k - |Mask|..];
        }
      }
    } else {
      var rest := Replace(s[1..], t, Mask);
      MaskRemoves(s[1..], t);
      assert m == [s[0]] + rest;
      PrefixOfMasked(s, t, t);
      forall k | 0 <= k <= |m| - |t| ensures !(t <= m[k..]) {
        if k > 0 {
          assert m[k..] == rest[k - 1..];
        }
      }
    }
  }

  /** Masking one target never creates an occurrence of another text free
      of `*`. */
  lemma {:induction false} MaskPreservesAbsence(s: string, t: string, u: string)
    requires |t| > 0 && |u| > 0 && '*' !in u
    requires !Contains(s, u)
    ensures !Contains(Replace(s, t, Mask), u)
    decreases |s|
  {
    var m := Replace(s, t, Mask);
    if |s| == 0 {
    } else if t <= s {
      var rest := Replace(s[|t|..], t, Mask);
      if Contains(s[|t|..], u) {
        ContainsInSuffix(s, u, |t|);
      }
      MaskPreservesAbsence(s[|t|..], t, u);
      assert m == Mask + rest;
      forall k | 0 <= k <= |m| - |u| ensures !(u <= m[k..]) {
        if k < |Mask| {
          assert m[k..][0] == '*';
          assert u[0] != '*';
        } else {
          assert m[k..] == rest[k - |Mask|..];
        }
      }
    } else {
      var rest := Replace(s[1..], t, Mask);
      if Contains(s[1..], u) {
        ContainsInSuffix(s, u, 1);
      }
      MaskPreservesAbsence(s[1..], t, u);
      assert m == [s[0]] + rest;
      PrefixOfMasked(s, t, u);
      assert !(u <= s[0..]);
      forall k | 0 <= k <= |m| - |u| ensures !(u <= m[k..]) {
        if k > 0 {
          assert m[k..] == rest[k - 1..];
        }
      }
    }
  }

  /** A text without the target is left as it is. */
  lemma {:induction false} ReplaceAbsent(s: string, t: string, r: string)
    requires |t| > 0 && !Contains(s, t)
    ensures Replace(s, t, r) == s
    decreases |s|
  {
    if |s| > 0 {
      assert !(t <= s[0..]);
      assert s[0..] == s;
      forall k | 0 <= k <= |s[1..]| - |t| ensures !(t <= s[1..][k..]) {
        assert s[1..][k..] == s[1 + k..];
      }
      ReplaceAbsent(s[1..], t, r);
      assert s == [s[0]] + s[1..];
    }
  }
}
