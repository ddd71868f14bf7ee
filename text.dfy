/**
  String primitives of JavaScript and Python that the extension relies on,
  restricted to ASCII: whitespace (the `\s` class, `trim`, `strip`),
  lower-casing, `indexOf`, `slice`, `startsWith`/`endsWith`, `split`/`join`,
  decimal rendering of numbers and the first match of `/\d+/`.
 */
module Text {

  datatype Option<T> = None | Some(value: T)

  // ---------------------------------------------------------------------------
  // Characters

  /** The ASCII characters that JavaScript's `\s` and `trim` and Python's `strip` treat as whitespace. */
  predicate IsSpace(c: char) {
    c == ' ' || c == '\t' || c == '\n' || c == '\r' || c == '\U{000B}' || c == '\U{000C}'
  }

  predicate IsUpper(c: char) { 'A' <= c <= 'Z' }

  predicate IsDigit(c: char) { '0' <= c <= '9' }

  function LowerChar(c: char): (d: char)
    ensures !IsUpper(d)
    ensures IsUpper(c) ==> d as int == c as int + 32
    ensures !IsUpper(c) ==> d == c
  {
    if IsUpper(c) then (c as int + 32) as char else c
  }

  predicate NoSpace(s: string) { forall i :: 0 <= i < |s| ==> !IsSpace(s[i]) }

  predicate NoUpper(s: string) { forall i :: 0 <= i < |s| ==> !IsUpper(s[i]) }

  predicate AllSpace(s: string) { forall i :: 0 <= i < |s| ==> IsSpace(s[i]) }

  predicate AllDigits(s: string) { forall i :: 0 <= i < |s| ==> IsDigit(s[i]) }

  predicate NoDigits(s: string) { forall i :: 0 <= i < |s| ==> !IsDigit(s[i]) }

  /** `toLowerCase`, on ASCII letters only. */
  function ToLower(s: string): (r: string)
    ensures |r| == |s| && NoUpper(r)
    ensures forall i :: 0 <= i < |s| ==> r[i] == LowerChar(s[i])
  {
    seq(|s|, i requires 0 <= i < |s| => LowerChar(s[i]))
  }

  lemma ToLowerOfLower(s: string)
    requires NoUpper(s)
    ensures ToLower(s) == s
  {
  }

  // ---------------------------------------------------------------------------
  // Trimming

  /** Drops the leading whitespace run. */
  function TrimLeft(s: string): (r: string)
    ensures |r| <= |s|
    ensures AllSpace(s[..|s| - |r|])
    ensures r == [] || !IsSpace(r[0])
  {
    if s != [] && IsSpace(s[0]) then TrimLeft(s[1..]) else s
  }

  /** What is left is a suffix of the input. */
  lemma {:induction false} TrimLeftIsSuffix(s: string)
    ensures TrimLeft(s) == s[|s| - |TrimLeft(s)|..]
    decreases |s|
  {
    if s != [] && IsSpace(s[0]) {
      TrimLeftIsSuffix(s[1..]);
      assert s[1..][|s| - 1 - |TrimLeft(s)|..] == s[|s| - |TrimLeft(s)|..];
    }
  }

  /** Drops the trailing whitespace run. */
  function TrimRight(s: string): (r: string)
    ensures |r| <= |s| && r == s[..|r|]
    ensures AllSpace(s[|r|..])
    ensures r == [] || !IsSpace(r[|r| - 1])
  {
    if s != [] && IsSpace(s[|s| - 1]) then TrimRight(s[..|s| - 1]) else s
  }

  /** JavaScript's `String.prototype.trim` and Python's `str.strip()` over the ASCII whitespace set. */
  function Trim(s: string): (r: string)
    ensures |r| <= |s|
    ensures r == [] || (!IsSpace(r[0]) && !IsSpace(r[|r| - 1]))
    ensures r == [] <==> AllSpace(s)
  {
    var l := TrimLeft(s);
    var r := TrimRight(l);
    TrimLeftIsSuffix(s);
    assert r != [] ==> r[0] == l[0];
    assert AllSpace(s) ==> l == [];
    r
  }

  lemma {:induction false} TrimLeftOfSpacesThen(w: string, t: string)
    requires AllSpace(w)
    requires t == [] || !IsSpace(t[0])
    ensures TrimLeft(w + t) == t
  {
    if w != [] {
      assert (w + t)[1..] == w[1..] + t;
      TrimLeftOfSpacesThen(w[1..], t);
    }
  }

  lemma {:induction false} TrimRightOfThenSpaces(t: string, w: string)
    requires AllSpace(w)
    requires t == [] || !IsSpace(t[|t| - 1])
    ensures TrimRight(t + w) == t
  {
    if w != [] {
      assert (t + w)[..|t + w| - 1] == t + w[..|w| - 1];
      TrimRightOfThenSpaces(t, w[..|w| - 1]);
    }
  }

  /** Whitespace around a string, and nothing else, is what `trim` removes. */
  lemma TrimSurrounded(a: string, t: string, b: string)
    requires AllSpace(a) && AllSpace(b)
    requires t == [] || (!IsSpace(t[0]) && !IsSpace(t[|t| - 1]))
    ensures Trim(a + t + b) == t
  {
    if t == [] {
      assert AllSpace(a + t + b);
    } else {
      assert a + t + b == a + (t + b);
      TrimLeftOfSpacesThen(a, t + b);
      TrimRightOfThenSpaces(t, b);
    }
  }

  // ---------------------------------------------------------------------------
  // Searching

  /** `pat` occurs in `s` starting at index `j`. */
  predicate OccursAt(s: string, pat: string, j: int) {
    0 <= j && j + |pat| <= |s| && s[j..j + |pat|] == pat
  }

  predicate Contains(s: string, pat: string) {
    exists j :: 0 <= j <= |s| - |pat| && OccursAt(s, pat, j)
  }

  function IndexFrom(s: string, pat: string, i: nat): (r: int)
    requires |pat| > 0
    ensures r == -1 || (i <= r && OccursAt(s, pat, r))
    ensures forall j :: i <= j && (r == -1 || j < r) ==> !OccursAt(s, pat, j)
    decreases |s| - i
  {
    if i + |pat| > |s| then -1
    else if s[i..i + |pat|] == pat then i
    else IndexFrom(s, pat, i + 1)
  }

  /** JavaScript's `indexOf` for a non-empty pattern: the first occurrence, or -1. */
  function IndexOf(s: string, pat: string): (r: int)
    requires |pat| > 0
    ensures r == -1 <==> !Contains(s, pat)
    ensures r != -1 ==> OccursAt(s, pat, r) && forall j :: 0 <= j < r ==> !OccursAt(s, pat, j)
  {
    IndexFrom(s, pat, 0)
  }

  /** The first occurrence of `w` in `a + w + b` is the one after `a`, unless `w` already occurs in a window that starts inside `a`. */
  lemma FirstOccurrenceAfter(a: string, w: string, b: string)
    requires |w| > 0
    requires !Contains(a + w[..|w| - 1], w)
    ensures IndexOf(a + w + b, w) == |a|
  {
    var s := a + w + b;
    var p := a + w[..|w| - 1];
    assert s[..|p|] == p;
    assert OccursAt(s, w, |a|) by { assert s[|a|..|a| + |w|] == w; }
    forall j | 0 <= j < |a|
      ensures !OccursAt(s, w, j)
    {
      OccursInPrefix(s, p, w, j);
    }
  }

  /** A window inside a prefix of `s` reads the same in `s` and in the prefix. */
  lemma OccursInPrefix(s: string, p: string, w: string, j: nat)
    requires |p| <= |s| && s[..|p|] == p && j + |w| <= |p|
    ensures OccursAt(s, w, j) <==> OccursAt(p, w, j)
  {
    forall k | j <= k < j + |w|
      ensures s[k] == p[k]
    {
      assert s[..|p|][k] == s[k];
    }
    assert s[j..j + |w|] == p[j..j + |w|];
  }

  predicate StartsWith(s: string, p: string) { |p| <= |s| && s[..|p|] == p }

  predicate EndsWith(s: string, p: string) { |p| <= |s| && s[|s| - |p|..] == p }

  /** Index of the first occurrence of `c` at or after `i`, or `|s|`. */
  function FindChar(s: string, c: char, i: nat): (k: nat)
    requires i <= |s|
    ensures i <= k <= |s|
    ensures k < |s| ==> s[k] == c
    ensures forall j :: i <= j < k ==> s[j] != c
    decreases |s| - i
  {
    if i == |s| || s[i] == c then i else FindChar(s, c, i + 1)
  }

  /** Index of the last occurrence of `c` in `s`, or -1. */
  function LastIndexOfChar(s: string, c: char): (k: int)
    ensures -1 <= k < |s|
    ensures k >= 0 ==> s[k] == c
    ensures forall j :: k < j < |s| ==> s[j] != c
  {
    if s == [] then -1
    else if s[|s| - 1] == c then |s| - 1
    else LastIndexOfChar(s[..|s| - 1], c)
  }

  // ---------------------------------------------------------------------------
  // JavaScript `slice` and `substring`

  /** How `slice` resolves an index: negative counts from the end, then clamped to `[0, len]`. */
  function SliceIndex(i: int, len: nat): (k: nat)
    ensures k <= len
    ensures 0 <= i <= len ==> k == i
    ensures i < 0 && len + i >= 0 ==> k == len + i
  {
    if i < 0 then (if len + i < 0 then 0 else len + i)
    else if i > len then len
    else i
  }

  /** `s.slice(start, end)`: empty when the resolved start is not before the resolved end. */
  function Slice(s: string, start: int, end: int): (r: string)
    ensures var a, b := SliceIndex(start, |s|), SliceIndex(end, |s|);
      if a < b then r == s[a..b] else r == []
  {
    var a, b := SliceIndex(start, |s|), SliceIndex(end, |s|);
    if a < b then s[a..b] else []
  }

  /** `s.substring(0, n)` for `n >= 0`: the first `n` characters, or all of `s` when shorter. */
  function Prefix(s: string, n: nat): (r: string)
    ensures |r| == if n <= |s| then n else |s|
    ensures StartsWith(s, r)
  {
    if n <= |s| then s[..n] else s
  }

  // ---------------------------------------------------------------------------
  // Splitting and joining

  /** Python's `s.split(sep)` for a one-character separator. */
  function Split(s: string, sep: char): (parts: seq<string>)
    ensures |parts| >= 1
    ensures forall k :: 0 <= k < |parts| ==> sep !in parts[k]
    decreases |s|
  {
    var i := FindChar(s, sep, 0);
    if i == |s| then [s] else [s[..i]] + Split(s[i + 1..], sep)
  }

  /** `sep.join(parts)`. */
  function Join(parts: seq<string>, sep: char): string {
    if parts == [] then []
    else if |parts| == 1 then parts[0]
    else parts[0] + [sep] + Join(parts[1..], sep)
  }

  lemma {:induction false} JoinSplit(s: string, sep: char)
    ensures Join(Split(s, sep), sep) == s
    decreases |s|
  {
    var i := FindChar(s, sep, 0);
    if i < |s| {
      JoinSplit(s[i + 1..], sep);
      assert s == s[..i] + [sep] + s[i + 1..];
    }
  }

  lemma {:induction false} SplitJoin(parts: seq<string>, sep: char)
    requires |parts| >= 1
    requires forall k :: 0 <= k < |parts| ==> sep !in parts[k]
    ensures Split(Join(parts, sep), sep) == parts
  {
    var s := Join(parts, sep);
    if |parts| == 1 {
      assert FindChar(s, sep, 0) == |s|;
    } else {
      var rest := Join(parts[1..], sep);
      assert s == parts[0] + [sep] + rest;
      assert FindChar(s, sep, 0) == |parts[0]| by {
        assert s[|parts[0]|] == sep;
        forall j | 0 <= j < |parts[0]| ensures s[j] != sep {
          assert s[j] == parts[0][j];
        }
      }
      assert s[..|parts[0]|] == parts[0];
      assert s[|parts[0]| + 1..] == rest;
      SplitJoin(parts[1..], sep);
    }
  }

  /** Joining two non-empty lists of parts puts one separator between their joins. */
  lemma {:induction false} JoinAppend(a: seq<string>, b: seq<string>, sep: char)
    requires a != [] && b != []
    ensures Join(a + b, sep) == Join(a, sep) + [sep] + Join(b, sep)
    decreases |a|
  {
    if |a| == 1 {
      assert (a + b)[1..] == b;
    } else {
      assert (a + b)[1..] == a[1..] + b;
      JoinAppend(a[1..], b, sep);
    }
  }

  // ---------------------------------------------------------------------------
  // Decimal numbers

  function DigitChar(d: nat): (c: char)
    requires d < 10
    ensures IsDigit(c)
  {
    ('0' as int + d) as char
  }

  function DigitValue(c: char): (d: nat)
    requires IsDigit(c)
    ensures d < 10 && DigitChar(d) == c
  {
    c as int - '0' as int
  }

  /** The decimal representation of `n` without leading zeros, as `${n}` and `str(n)` write it. */
  function NatToDecimal(n: nat): (r: string)
    ensures |r| >= 1 && AllDigits(r)
  {
    if n < 10 then [DigitChar(n)] else NatToDecimal(n / 10) + [DigitChar(n % 10)]
  }

  /** The number a string of decimal digits denotes. */
  function DecimalValue(s: string): nat
    requires AllDigits(s)
  {
    if s == [] then 0 else DecimalValue(s[..|s| - 1]) * 10 + DigitValue(s[|s| - 1])
  }

  lemma {:induction false} DecimalRoundTrip(n: nat)
    ensures DecimalValue(NatToDecimal(n)) == n
  {
    if n >= 10 {
      var r := NatToDecimal(n);
      assert r[..|r| - 1] == NatToDecimal(n / 10);
      DecimalRoundTrip(n / 10);
    }
  }

  lemma NatToDecimalInjective(a: nat, b: nat)
    requires NatToDecimal(a) == NatToDecimal(b)
    ensures a == b
  {
    DecimalRoundTrip(a);
    DecimalRoundTrip(b);
  }

  /** Python's `str` of an integer. */
  function IntToDecimal(i: int): (r: string)
    ensures |r| >= 1
    ensures i >= 0 ==> r == NatToDecimal(i)
    ensures i < 0 ==> r == "-" + NatToDecimal(-i)
  {
    if i >= 0 then NatToDecimal(i) else "-" + NatToDecimal(-i)
  }

  // ---------------------------------------------------------------------------
  // The first match of /\d+/

  /** Index of the first character at or after `i` that is not a digit, or `|s|`. */
  function DigitsEnd(s: string, i: nat): (k: nat)
    requires i <= |s|
    ensures i <= k <= |s| && AllDigits(s[i..k])
    ensures k < |s| ==> !IsDigit(s[k])
    decreases |s| - i
  {
    if i < |s| && IsDigit(s[i]) then DigitsEnd(s, i + 1) else i
  }

  /** Index of the first digit at or after `i`, or `|s|`. */
  function FirstDigit(s: string, i: nat): (k: nat)
    requires i <= |s|
    ensures i <= k <= |s| && NoDigits(s[i..k])
    ensures k < |s| ==> IsDigit(s[k])
    decreases |s| - i
  {
    if i == |s| || IsDigit(s[i]) then i else FirstDigit(s, i + 1)
  }

  /** `s.match(/\d+/)`: the leftmost maximal run of digits, or None where `match` returns null. */
  function FirstDigitRun(s: string): (r: Option<string>)
    ensures r.None? <==> NoDigits(s)
    ensures r.Some? ==> |r.value| >= 1 && AllDigits(r.value)
  {
    var i := FirstDigit(s, 0);
    if i == |s| then None else Some(s[i..DigitsEnd(s, i)])
  }

  lemma FirstDigitRunOf(p: string, d: string, q: string)
    requires NoDigits(p) && |d| >= 1 && AllDigits(d)
    requires q == [] || !IsDigit(q[0])
    ensures FirstDigitRun(p + d + q) == Some(d)
  {
    var s := p + d + q;
    FirstDigitAfter(s, 0, |p|);
    DigitsEndAt(s, |p|, |p| + |d|);
    assert s[|p|..|p| + |d|] == d;
  }

  lemma {:induction false} FirstDigitAfter(s: string, i: nat, k: nat)
    requires i <= k < |s| && IsDigit(s[k])
    requires forall j :: i <= j < k ==> !IsDigit(s[j])
    ensures FirstDigit(s, i) == k
    decreases k - i
  {
    if i < k { FirstDigitAfter(s, i + 1, k); }
  }

  lemma {:induction false} DigitsEndAt(s: string, i: nat, k: nat)
    requires i <= k <= |s|
    requires forall j :: i <= j < k ==> IsDigit(s[j])
    requires k < |s| ==> !IsDigit(s[k])
    ensures DigitsEnd(s, i) == k
    decreases k - i
  {
    if i < k { DigitsEndAt(s, i + 1, k); }
  }
}
