/**
 * String helpers that stand for the Python built-ins the backend relies on:
 * `str.isspace`, `str.strip`, `str.lower`, the `in` substring test,
 * `sep.join(parts)` and `str.rfind`.
 */
module Text {

  /** A character Python's `str.isspace` accepts (and `str.strip()` removes). */
  predicate IsSpace(c: char) {
    var n := c as int;
    (9 <= n <= 13) || (28 <= n <= 32) || n == 0x85 || n == 0xA0 || n == 0x1680
    || (0x2000 <= n <= 0x200A) || n == 0x2028 || n == 0x2029 || n == 0x202F
    || n == 0x205F || n == 0x3000
  }

  /** `not s.strip()`: the string is empty or whitespace only. */
  predicate IsBlank(s: string) {
    forall k :: 0 <= k < |s| ==> IsSpace(s[k])
  }

  /** The number of whitespace characters `s` starts with. */
  function LeadingSpaces(s: string): (n: nat)
    ensures n <= |s|
  {
    if s == [] || !IsSpace(s[0]) then 0 else 1 + LeadingSpaces(s[1..])
  }

  lemma {:induction false} LeadingSpacesSpec(s: string)
    ensures forall k :: 0 <= k < LeadingSpaces(s) ==> IsSpace(s[k])
    ensures LeadingSpaces(s) < |s| ==> !IsSpace(s[LeadingSpaces(s)])
    decreases |s|
  {
    if s != [] && IsSpace(s[0]) {
      LeadingSpacesSpec(s[1..]);
      forall k | 1 <= k < LeadingSpaces(s) ensures IsSpace(s[k]) {
        assert s[k] == s[1..][k - 1];
      }
    }
  }

  /** The number of whitespace characters `s` ends with. */
  function TrailingSpaces(s: string): (n: nat)
    ensures n <= |s|
  {
    if s == [] || !IsSpace(s[|s| - 1]) then 0 else 1 + TrailingSpaces(s[..|s| - 1])
  }

  lemma {:induction false} TrailingSpacesSpec(s: string)
    ensures forall k :: |s| - TrailingSpaces(s) <= k < |s| ==> IsSpace(s[k])
    ensures TrailingSpaces(s) < |s| ==> !IsSpace(s[|s| - 1 - TrailingSpaces(s)])
    decreases |s|
  {
    if s != [] && IsSpace(s[|s| - 1]) {
      TrailingSpacesSpec(s[..|s| - 1]);
    }
  }

  /** `r` is `s` with whitespace-only runs of length `lo` before it and some after it. */
  predicate TrimmedAt(s: string, r: string, lo: int) {
    && 0 <= lo <= |s| - |r| && r == s[lo..lo + |r|]
    && (forall k :: 0 <= k < lo ==> IsSpace(s[k]))
    && (forall k :: lo + |r| <= k < |s| ==> IsSpace(s[k]))
  }

  /** `s.strip()`: the infix of `s` left after removing whitespace at both ends. */
  function Strip(s: string): (r: string)
    ensures |r| <= |s|
  {
    var t := s[LeadingSpaces(s)..];
    t[..|t| - TrailingSpaces(t)]
  }

  /**
   * What `s.strip()` promises: only whitespace is removed, only at the two
   * ends, the result is empty exactly for a blank string, and otherwise it
   * starts and ends with a non-whitespace character.
   */
  lemma StripSpec(s: string)
    ensures TrimmedAt(s, Strip(s), LeadingSpaces(s))
    ensures Strip(s) == [] <==> IsBlank(s)
    ensures Strip(s) != [] ==> !IsSpace(Strip(s)[0]) && !IsSpace(Strip(s)[|Strip(s)| - 1])
  {
    StripTrimmed(s);
    StripEnds(s);
  }

  lemma StripTrimmed(s: string)
    ensures TrimmedAt(s, Strip(s), LeadingSpaces(s))
  {
    var lo := LeadingSpaces(s);
    var t := s[lo..];
    var r := Strip(s);
    LeadingSpacesSpec(s);
    DropTrailing(t);
    assert r == t[..|r|];
    assert r == s[lo..lo + |r|];
    forall k | lo + |r| <= k < |s| ensures IsSpace(s[k]) {
      assert s[k] == t[k - lo];
    }
  }

  lemma StripEnds(s: string)
    ensures Strip(s) == [] <==> IsBlank(s)
    ensures Strip(s) != [] ==> !IsSpace(Strip(s)[0]) && !IsSpace(Strip(s)[|Strip(s)| - 1])
  {
    var lo := LeadingSpaces(s);
    var t := s[lo..];
    var r := Strip(s);
    LeadingSpacesSpec(s);
    DropTrailing(t);
    if lo < |s| {
      assert t[0] == s[lo];
      assert r != [] && r[0] == s[lo];
      assert !IsBlank(s);
    } else {
      assert r == [];
      assert IsBlank(s) by {
        forall k | 0 <= k < |s| ensures IsSpace(s[k]) { }
      }
    }
  }

  /** Dropping the trailing whitespace of `t` leaves only whitespace behind and a non-space last character. */
  lemma DropTrailing(t: string)
    ensures var r := t[..|t| - TrailingSpaces(t)];
      && (forall k :: |r| <= k < |t| ==> IsSpace(t[k]))
      && (r != [] ==> !IsSpace(r[|r| - 1]))
      && (t != [] && !IsSpace(t[0]) ==> r != [] && r[0] == t[0])
  {
    TrailingSpacesSpec(t);
  }

  /** Stripping a string without whitespace at either end changes nothing. */
  lemma StripNoop(s: string)
    requires s != [] && !IsSpace(s[0]) && !IsSpace(s[|s| - 1])
    ensures Strip(s) == s
  {
    assert LeadingSpaces(s) == 0;
    assert s[0..] == s;
    assert TrailingSpaces(s) == 0;
  }

  /** Stripping twice is stripping once. */
  lemma StripIdempotent(s: string)
    ensures Strip(Strip(s)) == Strip(s)
  {
    var r := Strip(s);
    StripSpec(s);
    if r != [] {
      StripNoop(r);
    }
  }

  /**
   * Stripping a string that starts with a core whose first and last
   * characters are not whitespace keeps that core: only a whitespace tail
   * after it can go.
   */
  lemma StartsWithSplit(s: string, p: string)
    requires StartsWith(s, p)
    ensures s == p + s[|p|..]
  {
    assert s == s[..|p|] + s[|p|..];
  }

  lemma StripKeepsCore(p: string, q: string)
    requires p != [] && !IsSpace(p[0]) && !IsSpace(p[|p| - 1])
    ensures StartsWith(Strip(p + q), p)
  {
    var s := p + q;
    StripSpec(s);
    LeadingSpacesSpec(s);
    assert s[0] == p[0];
    assert LeadingSpaces(s) == 0;
    var r := Strip(s);
    assert s[|p| - 1] == p[|p| - 1];
    assert r[..|p|] == s[..|p|];
  }

  /** `c.lower()` on one character (ASCII letters only). */
  function LowerChar(c: char): (d: char)
    ensures 'A' <= c <= 'Z' ==> d as int == c as int + 32
    ensures !('A' <= c <= 'Z') ==> d == c
  {
    if 'A' <= c <= 'Z' then (c as int + 32) as char else c
  }

  /** `s.lower()` (ASCII letters only). */
  function Lower(s: string): (r: string)
    ensures |r| == |s|
    ensures forall k :: 0 <= k < |s| ==> r[k] == LowerChar(s[k])
  {
    seq(|s|, k requires 0 <= k < |s| => LowerChar(s[k]))
  }

  lemma LowerIdempotent(s: string)
    ensures Lower(Lower(s)) == Lower(s)
  {
  }

  /** `s.startswith(p)` */
  predicate StartsWith(s: string, p: string) {
    |p| <= |s| && s[..|p|] == p
  }

  /** The substring test `p in s`, walking the start position forward. */
  predicate Contains(s: string, p: string)
    decreases |s|
  {
    StartsWith(s, p) || (s != [] && Contains(s[1..], p))
  }

  /** `p` occurs in `s` starting at index `i`. */
  predicate OccursAt(s: string, p: string, i: int) {
    0 <= i <= |s| - |p| && s[i..i + |p|] == p
  }

  /** `Contains` agrees with the positional definition of a substring, both ways. */
  lemma {:induction false} ContainsIffOccurs(s: string, p: string)
    ensures Contains(s, p) <==> exists i :: OccursAt(s, p, i)
    decreases |s|
  {
    if StartsWith(s, p) {
      assert OccursAt(s, p, 0);
    } else if s == [] {
    } else {
      ContainsIffOccurs(s[1..], p);
      if exists i :: OccursAt(s, p, i) {
        var i :| OccursAt(s, p, i);
        if i > 0 {
          assert s[1..][i - 1..i - 1 + |p|] == p;
          assert OccursAt(s[1..], p, i - 1);
        }
      }
      if exists i :: OccursAt(s[1..], p, i) {
        var i :| OccursAt(s[1..], p, i);
        assert s[i + 1..i + 1 + |p|] == p;
        assert OccursAt(s, p, i + 1);
      }
    }
  }

  /** A string holds every prefix of what it holds. */
  lemma ContainsPrefix(s: string, p: string, k: nat)
    requires Contains(s, p) && k <= |p|
    ensures Contains(s, p[..k])
  {
    ContainsIffOccurs(s, p);
    var i :| OccursAt(s, p, i);
    assert s[i..i + k] == p[..k];
    assert OccursAt(s, p[..k], i);
    ContainsIffOccurs(s, p[..k]);
  }

  /** `sep.join(parts)` */
  function Join(sep: string, parts: seq<string>): string
  {
    if |parts| == 0 then ""
    else if |parts| == 1 then parts[0]
    else Join(sep, parts[..|parts| - 1]) + sep + parts[|parts| - 1]
  }

  /** Total length of the strings of a sequence (`sum(len(s) for s in parts)`). */
  function SumLen(parts: seq<string>): nat
  {
    if parts == [] then 0 else SumLen(parts[..|parts| - 1]) + |parts[|parts| - 1]|
  }

  lemma {:induction false} SumLenConcat(a: seq<string>, b: seq<string>)
    ensures SumLen(a + b) == SumLen(a) + SumLen(b)
    decreases |b|
  {
    if b == [] {
      assert a + b == a;
    } else {
      assert (a + b)[..|a + b| - 1] == a + b[..|b| - 1];
      SumLenConcat(a, b[..|b| - 1]);
    }
  }

  /** A joined string is as long as its parts plus one separator between each two. */
  lemma {:induction false} JoinLength(sep: string, parts: seq<string>)
    requires parts != []
    ensures |Join(sep, parts)| == SumLen(parts) + (|parts| - 1) * |sep|
    decreases |parts|
  {
    if |parts| == 1 {
      assert parts[..0] == [];
    } else {
      JoinLength(sep, parts[..|parts| - 1]);
    }
  }

  /**
   * `s.rfind(c, lo, hi)` for a one-character needle: the highest index in
   * [lo, hi) holding `c`, or -1.
   */
  function RFind(s: string, c: char, lo: int, hi: int): (r: int)
    requires 0 <= lo <= hi <= |s|
    ensures r == -1 || (lo <= r < hi && s[r] == c)
    ensures r == -1 ==> forall k :: lo <= k < hi ==> s[k] != c
    ensures r != -1 ==> forall k :: r < k < hi ==> s[k] != c
    decreases hi - lo
  {
    if lo == hi then -1 else if s[hi - 1] == c then hi - 1 else RFind(s, c, lo, hi - 1)
  }
}
