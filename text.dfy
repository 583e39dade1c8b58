/**
 * The string operations the core relies on, with Python's meaning:
 * `lower()`/`upper()` (ASCII letters), `strip()` (ASCII whitespace), `startswith`,
 * the `in` operator on strings, `find`, and `split(sep)`.
 */
module Text {
  import opened Options

  // ---------------------------------------------------------------- case

  function LowerChar(c: char): char {
    if 'A' <= c <= 'Z' then (c as int + 32) as char else c
  }

  function UpperChar(c: char): char {
    if 'a' <= c <= 'z' then (c as int - 32) as char else c
  }

  /** `s.lower()` */
  function Lower(s: string): (r: string)
    ensures |r| == |s|
    ensures forall i :: 0 <= i < |s| ==> r[i] == LowerChar(s[i])
  {
    seq(|s|, i requires 0 <= i < |s| => LowerChar(s[i]))
  }

  /** `s.upper()` */
  function Upper(s: string): (r: string)
    ensures |r| == |s|
    ensures forall i :: 0 <= i < |s| ==> r[i] == UpperChar(s[i])
  {
    seq(|s|, i requires 0 <= i < |s| => UpperChar(s[i]))
  }

  /** A string that `upper()` leaves unchanged. */
  predicate IsUpperCased(s: string) {
    forall i :: 0 <= i < |s| ==> UpperChar(s[i]) == s[i]
  }

  lemma UpperIsUpperCased(s: string)
    ensures IsUpperCased(Upper(s))
  {
  }

  lemma UpperOfUpperCased(s: string)
    requires IsUpperCased(s)
    ensures Upper(s) == s
  {
  }

  // ---------------------------------------------------------- whitespace

  /** The ASCII characters for which Python's `str.isspace()` holds. */
  predicate IsSpace(c: char) {
    c == ' ' || '\t' <= c <= '\r' || '\U{1C}' <= c <= '\U{1F}'
  }

  /** `s.lstrip()`: the longest suffix of `s` that does not start with whitespace. */
  function TrimLeft(s: string): (r: string)
    ensures |r| <= |s| && r == s[|s| - |r|..]
    ensures r != [] ==> !IsSpace(r[0])
    ensures forall i :: 0 <= i < |s| - |r| ==> IsSpace(s[i])
    decreases |s|
  {
    if s != [] && IsSpace(s[0]) then TrimLeft(s[1..]) else s
  }

  /** `s.rstrip()`: the longest prefix of `s` that does not end with whitespace. */
  function TrimRight(s: string): (r: string)
    ensures |r| <= |s| && r == s[..|r|]
    ensures r != [] ==> !IsSpace(r[|r| - 1])
    ensures forall i :: |r| <= i < |s| ==> IsSpace(s[i])
    decreases |s|
  {
    if s != [] && IsSpace(s[|s| - 1]) then TrimRight(s[..|s| - 1]) else s
  }

  /** `s.strip()` */
  function Strip(s: string): string {
    TrimRight(TrimLeft(s))
  }

  /** A string with no whitespace at either end. */
  predicate IsStripped(s: string) {
    s != [] ==> !IsSpace(s[0]) && !IsSpace(s[|s| - 1])
  }

  /** What `strip()` returns is a contiguous part of its argument and has no whitespace at its ends. */
  lemma StripIsInnerSlice(s: string)
    ensures exists a, b :: 0 <= a <= b <= |s| && Strip(s) == s[a..b]
    ensures IsStripped(Strip(s))
  {
    var l := TrimLeft(s);
    var r := TrimRight(l);
    assert r == s[|s| - |l|..][..|r|];
    assert r == s[|s| - |l|..|s| - |l| + |r|];
    if r != [] {
      assert r[0] == l[0];
    }
  }

  lemma StripOfStripped(s: string)
    requires IsStripped(s)
    ensures Strip(s) == s
  {
  }

  /** `strip()` is idempotent. */
  lemma StripIdempotent(s: string)
    ensures Strip(Strip(s)) == Strip(s)
  {
    StripIsInnerSlice(s);
    StripOfStripped(Strip(s));
  }

  /** Stripping a string that `upper()` leaves unchanged yields one that `upper()` leaves unchanged. */
  lemma StripKeepsUpperCased(s: string)
    requires IsUpperCased(s)
    ensures IsUpperCased(Strip(s))
  {
    StripIsInnerSlice(s);
    var a, b :| 0 <= a <= b <= |s| && Strip(s) == s[a..b];
    forall i | 0 <= i < |Strip(s)|
      ensures UpperChar(Strip(s)[i]) == Strip(s)[i]
    {
      assert Strip(s)[i] == s[a + i];
    }
  }

  /** `f"{o}"` for an optional string: the text itself, or "None". */
  function Shown(o: Option<string>): string {
    if o.Some? then o.value else "None"
  }

  // ---------------------------------------------------------- substrings

  /** `s.startswith(p)` */
  predicate StartsWith(s: string, p: string) {
    |p| <= |s| && s[..|p|] == p
  }

  /** `t` occurs in `s` starting at offset `i`. */
  predicate OccursAt(s: string, t: string, i: nat) {
    i + |t| <= |s| && s[i..i + |t|] == t
  }

  /** `t in s` */
  predicate Contains(s: string, t: string) {
    exists i: nat | i <= |s| :: OccursAt(s, t, i)
  }

  /** The first offset at or after `i` where `t` occurs in `s`. */
  function IndexFrom(s: string, t: string, i: nat): (r: Option<nat>)
    requires i <= |s|
    ensures r.Some? ==> i <= r.value && OccursAt(s, t, r.value)
    ensures r.Some? ==> forall j: nat :: i <= j < r.value ==> !OccursAt(s, t, j)
    ensures r.None? ==> forall j: nat :: i <= j ==> !OccursAt(s, t, j)
    decreases |s| - i
  {
    if OccursAt(s, t, i) then Some(i)
    else if i == |s| then None
    else IndexFrom(s, t, i + 1)
  }

  /** `s.find(t)`, with `None` for -1: the first offset where `t` occurs. */
  function IndexOf(s: string, t: string): (r: Option<nat>)
    ensures r.Some? <==> Contains(s, t)
    ensures r.Some? ==> OccursAt(s, t, r.value) && forall j: nat :: j < r.value ==> !OccursAt(s, t, j)
  {
    IndexFrom(s, t, 0)
  }

  /** The part of `s` before the first occurrence of `t`, or all of `s`. */
  function Before(s: string, t: string): (r: string)
    ensures StartsWith(s, r)
    ensures t != [] ==> !Contains(r, t)
  {
    match IndexOf(s, t)
    case None => s
    case Some(i) =>
      assert forall j: nat :: OccursAt(s[..i], t, j) ==> OccursAt(s, t, j) by {
        forall j: nat | OccursAt(s[..i], t, j) ensures OccursAt(s, t, j) {
          assert s[..i][j..j + |t|] == s[j..j + |t|];
        }
      }
      assert t != [] ==> forall j: nat :: OccursAt(s[..i], t, j) ==> j < i;
      s[..i]
  }

  /** The part of `s` after the first occurrence of `t`. */
  function After(s: string, t: string): string
    requires Contains(s, t)
  {
    s[IndexOf(s, t).value + |t|..]
  }

  /** `s.split(sep)` */
  function Split(s: string, sep: string): (parts: seq<string>)
    requires sep != []
    ensures |parts| >= 1
    ensures parts[0] == Before(s, sep)
    ensures |parts| >= 2 <==> Contains(s, sep)
    decreases |s|
  {
    match IndexOf(s, sep)
    case None => [s]
    case Some(i) => [s[..i]] + Split(s[i + |sep|..], sep)
  }

  /** The second part of a split is what lies between the first and second separator. */
  lemma SplitSecond(s: string, sep: string)
    requires sep != [] && Contains(s, sep)
    ensures Split(s, sep)[1] == Before(After(s, sep), sep)
  {
  }

  /** Cutting at the first separator twice is the same as cutting once. */
  lemma BeforeIdempotent(s: string, t: string)
    requires t != []
    ensures Before(Before(s, t), t) == Before(s, t)
  {
  }

  /** When the first occurrence of `t` is at `i`, `Before` cuts there. */
  lemma BeforeAt(s: string, t: string, i: nat)
    requires OccursAt(s, t, i)
    requires forall j: nat :: j < i ==> !OccursAt(s, t, j)
    ensures Before(s, t) == s[..i]
  {
    assert Contains(s, t);
  }

  /** When the first occurrence of `t` is at `i`, `After` is what follows it. */
  lemma AfterAt(s: string, t: string, i: nat)
    requires OccursAt(s, t, i)
    requires forall j: nat :: j < i ==> !OccursAt(s, t, j)
    ensures Contains(s, t) && After(s, t) == s[i + |t|..]
  {
    assert Contains(s, t);
  }

  /** Without an occurrence of `t`, `Before` keeps all of `s`. */
  lemma BeforeAbsent(s: string, t: string)
    requires !Contains(s, t)
    ensures Before(s, t) == s
  {
  }

  /** A slice of a string in which `t` does not occur does not contain `t` either. */
  lemma SliceOmits(s: string, t: string, a: nat, b: nat)
    requires a <= b <= |s| && !Contains(s, t)
    ensures !Contains(s[a..b], t)
  {
    forall j: nat | j <= |s[a..b]| && OccursAt(s[a..b], t, j)
      ensures OccursAt(s, t, a + j)
    {
      var u, v := s[a..b][j..j + |t|], s[a + j..a + j + |t|];
      assert |u| == |v|;
      assert forall k :: 0 <= k < |u| ==> u[k] == s[a + j + k] == v[k];
      assert u == v;
    }
  }

  // ------------------------------------------------ one-character separators

  /** `s.find(c)` for a single character, with `None` for -1. */
  function FindChar(s: string, c: char): (r: Option<nat>)
    ensures r.Some? ==> r.value < |s| && s[r.value] == c
    ensures r.Some? ==> forall j :: 0 <= j < r.value ==> s[j] != c
    ensures r.None? ==> forall j :: 0 <= j < |s| ==> s[j] != c
    decreases |s|
  {
    if s == [] then None
    else if s[0] == c then Some(0)
    else match FindChar(s[1..], c)
      case None => None
      case Some(k) => Some(k + 1)
  }

  /** `s.split(c)[-1]`: the text after the last `c`, or all of `s` when `c` does not occur. */
  function AfterLast(s: string, c: char): (r: string)
    ensures |r| <= |s| && r == s[|s| - |r|..]
    ensures forall j :: 0 <= j < |r| ==> r[j] != c
    ensures |r| < |s| ==> s[|s| - |r| - 1] == c
    decreases |s|
  {
    if s == [] || s[|s| - 1] == c then [] else AfterLast(s[..|s| - 1], c) + [s[|s| - 1]]
  }

  /** Whatever precedes it, the text after the last separator is what follows the final one. */
  lemma {:induction false} AfterLastSeparator(x: string, y: string, c: char)
    requires forall j :: 0 <= j < |y| ==> y[j] != c
    ensures AfterLast(x + [c] + y, c) == y
    decreases |y|
  {
    var w := x + [c] + y;
    if y == [] {
      assert w[|w| - 1] == c;
    } else {
      var y' := y[..|y| - 1];
      assert w[..|w| - 1] == x + [c] + y';
      AfterLastSeparator(x, y', c);
      assert y' + [y[|y| - 1]] == y;
    }
  }
}
