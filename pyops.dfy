/**
 * The few pieces of Python list and string semantics that the applications
 * rely on: negative indices, prefix slices, `in` on strings, `str.replace`,
 * `str.split` and the file-name helpers of `os.path` (POSIX flavour).
 */
module PyOps {
  import opened Wrappers

  /** `xs[i]` for a list of length `n`: negative indices count from the end; `None` is an IndexError. */
  function PyIndex(i: int, n: nat): (r: Option<nat>)
    ensures r.Some? <==> -(n as int) <= i < n
    ensures r.Some? ==> r.value < n && (r.value == i || r.value == i + n)
  {
    if 0 <= i < n then Some(i) else if -(n as int) <= i < 0 then Some(i + n) else None
  }

  /** `xs[:k]`: a negative bound counts from the end; bounds past either end are clipped. */
  function PyPrefix<T>(xs: seq<T>, k: int): (r: seq<T>)
    ensures r <= xs
    ensures 0 <= k <= |xs| ==> |r| == k
    ensures k < 0 ==> |r| == if |xs| + k < 0 then 0 else |xs| + k
  {
    if k >= |xs| then xs
    else if k >= 0 then xs[..k]
    else if |xs| + k >= 0 then xs[..|xs| + k]
    else []
  }

  /** `pat in s` for strings. */
  predicate OccursAt(s: string, pat: string, i: nat) {
    i + |pat| <= |s| && s[i..i + |pat|] == pat
  }

  predicate Contains(s: string, pat: string) {
    exists i: nat | i < |s| :: OccursAt(s, pat, i)
  }

  /**
   * `s.replace(pat, "")`: occurrences are found left to right without
   * overlapping, and the result is not scanned again.
   */
  function RemoveAll(s: string, pat: string): (r: string)
    requires |pat| > 0
    ensures |r| <= |s|
    decreases |s|
  {
    if |s| < |pat| then s
    else if s[..|pat|] == pat then RemoveAll(s[|pat|..], pat)
    else [s[0]] + RemoveAll(s[1..], pat)
  }

  /** Removing from a string without any occurrence leaves it as it is. */
  lemma {:induction false} RemoveAllAbsent(s: string, pat: string)
    requires |pat| > 0
    requires forall i: nat :: i < |s| ==> !OccursAt(s, pat, i)
    ensures RemoveAll(s, pat) == s
    decreases |s|
  {
    if |s| >= |pat| {
      assert !OccursAt(s, pat, 0);
      assert s[..|pat|] != pat;
      forall i: nat | i < |s[1..]| ensures !OccursAt(s[1..], pat, i) {
        assert !OccursAt(s, pat, i + 1);
      }
      RemoveAllAbsent(s[1..], pat);
      assert [s[0]] + s[1..] == s;
    }
  }

  /** `str.replace` only removes characters: it brings in none that were absent. */
  lemma {:induction false} RemoveAllKeeps(s: string, pat: string, c: char)
    requires |pat| > 0 && c !in s
    ensures c !in RemoveAll(s, pat)
    decreases |s|
  {
    if |s| >= |pat| {
      if s[..|pat|] == pat {
        RemoveAllKeeps(s[|pat|..], pat, c);
      } else {
        RemoveAllKeeps(s[1..], pat, c);
      }
    }
  }

  /** No proper prefix of `pat` is also a suffix of it, as holds for `_edited`. */
  predicate Borderless(pat: string) {
    forall k :: 0 < k < |pat| ==> pat[..k] != pat[|pat| - k..]
  }

  /**
   * Removing `pat` from a string that does not contain it, followed by one
   * `pat`, removes just that one: no occurrence can straddle the join.
   */
  lemma {:induction false} RemoveAllTail(s: string, pat: string)
    requires |pat| > 0 && Borderless(pat)
    requires forall i: nat :: i < |s| ==> !OccursAt(s, pat, i)
    ensures RemoveAll(s + pat, pat) == s
    decreases |s|
  {
    var t := s + pat;
    if |s| == 0 {
      assert t == pat;
      assert t[|pat|..] == [];
    } else {
      if |s| < |pat| {
        var k := |pat| - |s|;
        assert t[..|pat|][|s|..] == pat[..k];
        assert pat[|s|..] == pat[|pat| - k..];
        assert pat[..k] != pat[|pat| - k..];
      } else {
        assert s[..|pat|] == t[..|pat|];
        assert !OccursAt(s, pat, 0);
      }
      forall i: nat | i < |s[1..]| ensures !OccursAt(s[1..], pat, i) {
        assert !OccursAt(s, pat, i + 1);
        assert s[1..][i..] == s[i + 1..];
      }
      RemoveAllTail(s[1..], pat);
      assert t[1..] == s[1..] + pat;
      assert [s[0]] + s[1..] == s;
    }
  }

  /** The position just after the last `c` in `s`, or 0 when there is none. */
  function AfterLast(s: string, c: char): (r: nat)
    ensures r <= |s|
    ensures r > 0 ==> s[r - 1] == c
    ensures forall i :: r <= i < |s| ==> s[i] != c
    ensures r == 0 <==> c !in s
  {
    if |s| == 0 then 0
    else if s[|s| - 1] == c then |s|
    else
      assert s == s[..|s| - 1] + [s[|s| - 1]];
      AfterLast(s[..|s| - 1], c)
  }

  /** The position of the first `c` in `s`, or `|s|` when there is none. */
  function FirstIndex(s: string, c: char): (r: nat)
    ensures r <= |s|
    ensures r < |s| ==> s[r] == c
    ensures forall i :: 0 <= i < r ==> s[i] != c
    ensures r == |s| <==> c !in s
  {
    if |s| == 0 then 0
    else if s[0] == c then 0
    else
      assert s == [s[0]] + s[1..];
      1 + FirstIndex(s[1..], c)
  }

  /** `os.path.basename`: everything after the last '/'. */
  function Basename(path: string): (r: string)
    ensures '/' !in r
    ensures |r| <= |path| && path[|path| - |r|..] == r
  {
    path[AfterLast(path, '/')..]
  }

  /** The last '/' or '.' of a concatenation is in its second part whenever that part has one. */
  lemma {:induction false} AfterLastConcat(a: string, b: string, c: char)
    ensures c in b ==> AfterLast(a + b, c) == |a| + AfterLast(b, c)
    ensures c !in b ==> AfterLast(a + b, c) == AfterLast(a, c)
    decreases |b|
  {
    if |b| > 0 && b[|b| - 1] != c {
      assert (a + b)[..|a + b| - 1] == a + b[..|b| - 1];
      AfterLastConcat(a, b[..|b| - 1], c);
      assert c in b <==> c in b[..|b| - 1];
    } else if |b| == 0 {
      assert a + b == a;
    }
  }

  /** The base name of `dir/name` is `name` when `name` has no '/'. */
  lemma BasenameOf(dir: string, name: string)
    requires dir == [] || dir[|dir| - 1] == '/'
    requires '/' !in name
    ensures Basename(dir + name) == name
  {
    AfterLastConcat(dir, name, '/');
    if dir == [] {
      assert dir + name == name;
    } else {
      assert AfterLast(dir, '/') == |dir|;
      assert (dir + name)[|dir|..] == name;
    }
  }

  /**
   * `os.path.splitext` of a name without '/': the extension starts at the
   * last '.', unless every character before that dot is itself a dot.
   */
  function SplitExt(name: string): (r: (string, string))
    ensures r.0 + r.1 == name
    ensures r.1 == [] || (r.1[0] == '.' && '.' !in r.1[1..])
  {
    var dot := AfterLast(name, '.');
    if dot > 0 && exists i | 0 <= i < dot - 1 :: name[i] != '.' then
      assert name[..dot - 1] + name[dot - 1..] == name;
      (name[..dot - 1], name[dot - 1..])
    else (name, [])
  }

  /** `s.split(c)[0]`: the text before the first `c`. */
  function FirstField(s: string, c: char): (r: string)
    ensures r <= s && c !in r
  {
    s[..FirstIndex(s, c)]
  }

  /** `s.split(c)[-1]`: the text after the last `c`. */
  function LastField(s: string, c: char): (r: string)
    ensures c !in r
    ensures |r| <= |s| && s[|s| - |r|..] == r
  {
    s[AfterLast(s, c)..]
  }

  /** Python's `round(x)` to an integer: the nearest integer, halves to the even neighbour. */
  function RoundHalfEven(x: real): (n: int)
    ensures n as real - 0.5 <= x <= n as real + 0.5
    ensures x - x.Floor as real != 0.5 ==> n as real - 0.5 < x < n as real + 0.5
    ensures x - x.Floor as real == 0.5 ==> n % 2 == 0
  {
    var f := x.Floor;
    var d := x - f as real;
    if d < 0.5 then f
    else if d > 0.5 then f + 1
    else if f % 2 == 0 then f
    else f + 1
  }
}
