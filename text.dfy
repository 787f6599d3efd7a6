/**
 * The Python string operations the conversion code relies on: `startswith`,
 * `endswith`, `split(sep, 1)`, `strip()` and the ordering that `sorted`
 * uses on strings (by code point, lexicographically).
 */
module Text {
  import opened Wrappers

  predicate StartsWith(s: string, prefix: string)
  {
    |prefix| <= |s| && s[..|prefix|] == prefix
  }

  predicate EndsWith(s: string, suffix: string)
  {
    |suffix| <= |s| && s[|s| - |suffix|..] == suffix
  }

  /** The index of the first occurrence of `c` in `s`, if there is one. */
  function Find(s: string, c: char): (r: Option<nat>)
    ensures r.None? <==> c !in s
    ensures r.Some? ==> r.value < |s| && s[r.value] == c && c !in s[..r.value]
  {
    if s == [] then None
    else if s[0] == c then Some(0)
    else match Find(s[1..], c)
      case None => None
      case Some(i) =>
        assert s[..i + 1] == [s[0]] + s[1..][..i];
        Some(i + 1)
  }

  /**
   * `s.split(sep, 1)` unpacked into exactly two parts: the text before the
   * first `sep` and everything after it. Unpacking fails (None) when `sep`
   * does not occur.
   */
  function SplitOnce(s: string, sep: char): (r: Option<(string, string)>)
    ensures r.None? <==> sep !in s
    ensures r.Some? ==> s == r.value.0 + [sep] + r.value.1 && sep !in r.value.0
  {
    match Find(s, sep)
    case None => None
    case Some(i) =>
      assert s == s[..i] + [sep] + s[i + 1..];
      Some((s[..i], s[i + 1..]))
  }

  /** The split is unique: a first separator and the rest determine it. */
  lemma {:induction false} SplitOnceUnique(a: string, sep: char, b: string)
    requires sep !in a
    ensures SplitOnce(a + [sep] + b, sep) == Some((a, b))
  {
    var s := a + [sep] + b;
    var r := SplitOnce(s, sep);
    assert sep in s by { assert s[|a|] == sep; }
    var x := r.value.0;
    assert s[|x|] == sep;
    assert s[..|a|] == a && s[|a|] == sep;
    assert |x| == |a|;
    assert x == s[..|a|] == a;
    assert r.value.1 == s[|a| + 1..] == b;
  }

  /** The characters `str.isspace()` accepts in the ASCII and Latin-1 ranges. */
  predicate IsSpace(c: char)
  {
    var n := c as int;
    (9 <= n <= 13) || (28 <= n <= 32) || n == 133 || n == 160
  }

  predicate AllSpace(s: string)
  {
    forall i :: 0 <= i < |s| ==> IsSpace(s[i])
  }

  /** Every character of `s` at an index in [lo, hi) is whitespace. */
  predicate SpaceIn(s: string, lo: int, hi: int)
  {
    forall i :: lo <= i < hi && 0 <= i < |s| ==> IsSpace(s[i])
  }

  /** `s.lstrip()`: the suffix of `s` left after dropping leading whitespace. */
  function TrimStart(s: string): (r: string)
    ensures |r| <= |s| && r == s[|s| - |r|..]
    ensures SpaceIn(s, 0, |s| - |r|)
    ensures r == [] || !IsSpace(r[0])
  {
    if s != [] && IsSpace(s[0]) then TrimStart(s[1..]) else s
  }

  /** `s.rstrip()`: the prefix of `s` left after dropping trailing whitespace. */
  function TrimEnd(s: string): (r: string)
    ensures |r| <= |s| && r == s[..|r|]
    ensures SpaceIn(s, |r|, |s|)
    ensures r == [] || !IsSpace(r[|r| - 1])
  {
    if s != [] && IsSpace(s[|s| - 1]) then TrimEnd(s[..|s| - 1]) else s
  }

  /** TrimStart drops exactly a maximal whitespace prefix. */
  lemma TrimStartOf(s: string, w: string, t: string)
    requires s == w + t && AllSpace(w) && (t == [] || !IsSpace(t[0]))
    ensures TrimStart(s) == t
  {
    var r := TrimStart(s);
    assert |r| == |t|;
    assert r == s[|w|..] == t;
  }

  /** TrimEnd drops exactly a maximal whitespace suffix. */
  lemma TrimEndOf(s: string, t: string, w: string)
    requires s == t + w && AllSpace(w) && (t == [] || !IsSpace(t[|t| - 1]))
    ensures TrimEnd(s) == t
  {
    var r := TrimEnd(s);
    assert t != [] ==> s[|t| - 1] == t[|t| - 1];
    assert forall i :: |t| <= i < |s| ==> s[i] == w[i - |t|];
    assert |r| == |t|;
    assert r == s[..|t|] == t;
  }

  /** `s.strip()`: `s` without leading and trailing whitespace (see StripSlice). */
  function Strip(s: string): (r: string)
    ensures |r| <= |s|
    ensures r == [] || (!IsSpace(r[0]) && !IsSpace(r[|r| - 1]))
  {
    var t := TrimStart(s);
    var r := TrimEnd(t);
    assert r != [] ==> r[0] == t[0];
    r
  }

  /**
   * What `strip()` removes: the result is the slice of `s` between a
   * whitespace-only prefix and a whitespace-only suffix.
   */
  lemma StripSlice(s: string) returns (i: nat, j: nat)
    ensures i <= j <= |s| && Strip(s) == s[i..j]
    ensures SpaceIn(s, 0, i) && SpaceIn(s, j, |s|)
  {
    var t := TrimStart(s);
    var r := TrimEnd(t);
    assert Strip(s) == r;
    i, j := SliceBetween(s, t, r);
  }

  /**
   * Helper for StripSlice: a prefix `r` of a suffix `t` of `s` is the slice
   * `s[i..j]`; whitespace cut from either is whitespace of `s`.
   */
  lemma SliceBetween(s: string, t: string, r: string) returns (i: nat, j: nat)
    requires |t| <= |s| && t == s[|s| - |t|..] && SpaceIn(s, 0, |s| - |t|)
    requires |r| <= |t| && r == t[..|r|] && SpaceIn(t, |r|, |t|)
    ensures i == |s| - |t| && j == i + |r| && j <= |s| && r == s[i..j]
    ensures SpaceIn(s, 0, i) && SpaceIn(s, j, |s|)
  {
    i := |s| - |t|;
    j := i + |r|;
    assert t == s[i..i + |t|];
    PrefixOfSlice(s, i, |t|, |r|);
    SpaceInShift(s, i, t, |r|, |t|);
  }

  /** Helper for SliceBetween: a prefix of a slice is a slice. */
  lemma PrefixOfSlice(s: string, off: nat, n: nat, m: nat)
    requires m <= n && off + n <= |s|
    ensures s[off..off + n][..m] == s[off..off + m]
  {
  }

  /** Whitespace in a slice `s[off..off + |t|]` is whitespace in `s`, shifted by `off`. */
  lemma SpaceInShift(s: string, off: nat, t: string, lo: int, hi: int)
    requires off + |t| <= |s| && t == s[off..off + |t|] && 0 <= lo && hi <= |t|
    requires SpaceIn(t, lo, hi)
    ensures SpaceIn(s, off + lo, off + hi)
  {
    forall k | off + lo <= k < off + hi ensures IsSpace(s[k]) {
      assert s[k] == t[k - off];
    }
  }

  /** Stripping a string that has no surrounding whitespace leaves it as it is. */
  lemma {:induction false} StripTrimmed(s: string)
    requires s == [] || (!IsSpace(s[0]) && !IsSpace(s[|s| - 1]))
    ensures Strip(s) == s
  {
  }

  /** `strip()` is idempotent. */
  lemma {:induction false} StripIdempotent(s: string)
    ensures Strip(Strip(s)) == Strip(s)
  {
    StripTrimmed(Strip(s));
  }

  /** Python's `<` on `str`: lexicographic comparison of code points. */
  predicate Less(a: string, b: string)
  {
    if a == [] then b != []
    else b != [] && (a[0] < b[0] || (a[0] == b[0] && Less(a[1..], b[1..])))
  }

  lemma {:induction false} LessIrreflexive(a: string)
    ensures !Less(a, a)
  {
    if a != [] { LessIrreflexive(a[1..]); }
  }

  lemma {:induction false} LessTransitive(a: string, b: string, c: string)
    requires Less(a, b) && Less(b, c)
    ensures Less(a, c)
  {
    if a != [] && a[0] == b[0] && b[0] == c[0] {
      LessTransitive(a[1..], b[1..], c[1..]);
    }
  }

  lemma {:induction false} LessTotal(a: string, b: string)
    requires a != b
    ensures Less(a, b) || Less(b, a)
  {
    if a != [] && b != [] && a[0] == b[0] {
      assert a == [a[0]] + a[1..] && b == [b[0]] + b[1..];
      LessTotal(a[1..], b[1..]);
    }
  }

  /** The least string of a finite non-empty set. */
  ghost function MinString(s: set<string>): (m: string)
    requires s != {}
    ensures m in s
    ensures forall k :: k in s && k != m ==> Less(m, k)
    decreases |s|
  {
    var x :| x in s;
    if s == {x} then x
    else
      var m := MinString(s - {x});
      if Less(x, m) then
        MinIsLeast(x, m, s - {x});
        x
      else
        LessTotal(x, m);
        m
  }

  /** Helper for MinString: whatever is below the minimum of a set is below all of it. */
  lemma MinIsLeast(x: string, m: string, rest: set<string>)
    requires Less(x, m) && m in rest
    requires forall k :: k in rest && k != m ==> Less(m, k)
    ensures forall k :: k in rest ==> Less(x, k)
  {
    forall k | k in rest ensures Less(x, k) {
      if k != m { LessTransitive(x, m, k); }
    }
  }

  /** The elements of a finite set of strings in ascending order, as `sorted` gives them. */
  ghost function SortedStrings(s: set<string>): (r: seq<string>)
    ensures |r| == |s|
    ensures forall i :: 0 <= i < |r| ==> r[i] in s
    ensures forall k :: k in s ==> k in r
    ensures forall i, j :: 0 <= i < j < |r| ==> Less(r[i], r[j])
    decreases |s|
  {
    if s == {} then []
    else
      var m := MinString(s);
      var rest := SortedStrings(s - {m});
      PrependLeast(m, s - {m}, rest);
      [m] + rest
  }

  /** Helper for SortedStrings: putting the least element in front keeps the order strict. */
  lemma PrependLeast(m: string, others: set<string>, rest: seq<string>)
    requires forall k :: k in others ==> Less(m, k)
    requires forall i :: 0 <= i < |rest| ==> rest[i] in others
    requires forall i, j :: 0 <= i < j < |rest| ==> Less(rest[i], rest[j])
    ensures forall i, j :: 0 <= i < j < |[m] + rest| ==> Less(([m] + rest)[i], ([m] + rest)[j])
  {
    var r := [m] + rest;
    forall i, j | 0 <= i < j < |r| ensures Less(r[i], r[j]) {
      if i == 0 {
        assert r[j] == rest[j - 1];
      } else {
        assert r[i] == rest[i - 1] && r[j] == rest[j - 1];
      }
    }
  }
}
