/**
 * Character classes and string helpers with Python's meaning: `str.isspace` (which is also
 * what the regular-expression class `\s` and `str.strip()` use), `str.splitlines` line
 * boundaries, `sep.join(parts)`, decimal rendering of integers, and code-point ordering of
 * file names as `sorted` uses it.
 */
module Text {

  /** Python's `str.isspace`: the characters CPython classifies as whitespace. */
  predicate IsSpace(c: char) {
    || ('\t' <= c <= '\r')
    || ('\U{1C}' <= c <= ' ')
    || c == '\U{85}' || c == '\U{A0}' || c == '\U{1680}'
    || ('\U{2000}' <= c <= '\U{200A}')
    || c == '\U{2028}' || c == '\U{2029}' || c == '\U{202F}' || c == '\U{205F}' || c == '\U{3000}'
  }

  /** The characters at which `str.splitlines` ends a line. */
  predicate IsLineBoundary(c: char) {
    || c == '\n' || c == '\r' || c == '\U{0B}' || c == '\U{0C}'
    || c == '\U{1C}' || c == '\U{1D}' || c == '\U{1E}'
    || c == '\U{85}' || c == '\U{2028}' || c == '\U{2029}'
  }

  predicate IsAsciiDigit(c: char) { '0' <= c <= '9' }

  predicate IsAsciiUpper(c: char) { 'A' <= c <= 'Z' }

  lemma UpperNotSpace(c: char)
    requires IsAsciiUpper(c)
    ensures !IsSpace(c)
  {
  }

  predicate AllSpace(s: string) { forall k {:trigger IsSpace(s[k])} :: 0 <= k < |s| ==> IsSpace(s[k]) }

  /** Index of the first non-space character of `s`, or `|s|`. */
  function StripStart(s: string): (i: nat)
    ensures i <= |s|
  {
    if s == [] || !IsSpace(s[0]) then 0 else 1 + StripStart(s[1..])
  }

  lemma {:induction false} StripStartSpec(s: string)
    ensures forall k {:trigger IsSpace(s[k])} :: 0 <= k < StripStart(s) ==> IsSpace(s[k])
    ensures StripStart(s) < |s| ==> !IsSpace(s[StripStart(s)])
  {
    if s != [] && IsSpace(s[0]) {
      StripStartSpec(s[1..]);
      forall k | 0 < k < StripStart(s) ensures IsSpace(s[k]) {
        assert s[k] == s[1..][k - 1];
      }
    }
  }

  /** One past the last non-space character of `s`, or 0. */
  function StripEnd(s: string): (j: nat)
    ensures j <= |s|
  {
    if s == [] || !IsSpace(s[|s| - 1]) then |s| else StripEnd(s[..|s| - 1])
  }

  lemma {:induction false} StripEndSpec(s: string)
    ensures forall k {:trigger IsSpace(s[k])} :: StripEnd(s) <= k < |s| ==> IsSpace(s[k])
    ensures StripEnd(s) > 0 ==> !IsSpace(s[StripEnd(s) - 1])
  {
    if s != [] && IsSpace(s[|s| - 1]) {
      StripEndSpec(s[..|s| - 1]);
    }
  }

  /** Python's `s.strip()`. */
  function Strip(s: string): (r: string)
    ensures |r| <= |s|
  {
    var i, j := StripStart(s), StripEnd(s);
    if i < j then s[i..j] else []
  }

  /** `s.strip()` is the slice of `s` that starts at its first non-space character. */
  lemma StripSlice(s: string)
    ensures StripStart(s) + |Strip(s)| <= |s|
    ensures Strip(s) == s[StripStart(s)..StripStart(s) + |Strip(s)|]
  {
  }

  /** A non-empty `s.strip()` neither starts nor ends with whitespace. */
  lemma StripEnds(s: string)
    ensures Strip(s) != [] ==> !IsSpace(Strip(s)[0]) && !IsSpace(Strip(s)[|Strip(s)| - 1])
  {
    StripStartSpec(s);
    StripEndSpec(s);
    var i, j := StripStart(s), StripEnd(s);
    if i < j {
      assert Strip(s)[0] == s[i] && Strip(s)[j - i - 1] == s[j - 1];
    }
  }

  /**
   * Everything after the slice `s.strip()` is whitespace, and the result is empty exactly when
   * `s` is all whitespace.
   */
  lemma StripRest(s: string)
    ensures StripStart(s) + |Strip(s)| <= |s|
    ensures Strip(s) == [] <==> AllSpace(s)
    ensures AllSpace(s[StripStart(s) + |Strip(s)|..])
  {
    StripStartSpec(s);
    StripEndSpec(s);
    var i, j := StripStart(s), StripEnd(s);
    if i < j {
      assert |Strip(s)| == j - i;
      assert !AllSpace(s) by {
        assert !IsSpace(s[i]);
      }
      forall k | 0 <= k < |s| - j ensures IsSpace(s[j..][k]) {
        assert s[j..][k] == s[j + k];
      }
    } else {
      assert i == |s|;
      assert s[i..] == [];
      forall k | 0 <= k < |s| ensures IsSpace(s[k]) {
      }
    }
  }

  lemma SliceOfSlice(s: string, i: nat, j: nat, a: nat, b: nat)
    requires i <= j <= |s| && a <= b <= j - i
    ensures s[i..j][a..b] == s[i + a..i + b]
  {
    forall k | 0 <= k < b - a ensures s[i..j][a..b][k] == s[i + a..i + b][k] {
      assert s[i..j][a..b][k] == s[i..j][a + k] == s[i + a + k];
    }
  }

  /** `t` occurs in `s` starting at index `k`. */
  predicate OccursAt(s: string, t: string, k: int) {
    0 <= k && k + |t| <= |s| && s[k..k + |t|] == t
  }

  /** Python's `t in s` for strings. */
  ghost predicate Contains(s: string, t: string) {
    exists k :: OccursAt(s, t, k)
  }

  /** A string contains whatever is written between a prefix and a suffix of it. */
  lemma ContainsInfix(a: string, t: string, b: string)
    ensures Contains(a + t + b, t)
  {
    assert (a + t + b)[|a|..|a| + |t|] == t;
    assert OccursAt(a + t + b, t, |a|);
  }

  /** Containment is transitive. */
  lemma ContainsTrans(s: string, t: string, u: string)
    requires Contains(s, t) && Contains(t, u)
    ensures Contains(s, u)
  {
    var k :| OccursAt(s, t, k);
    var l :| OccursAt(t, u, l);
    SliceOfSlice(s, k, k + |t|, l, l + |u|);
    assert OccursAt(s, u, k + l);
  }

  lemma {:induction false} StripStartBound(s: string, a: nat)
    requires a < |s| && !IsSpace(s[a])
    ensures StripStart(s) <= a
  {
    if a > 0 && IsSpace(s[0]) {
      StripStartBound(s[1..], a - 1);
    }
  }

  lemma {:induction false} StripEndBound(s: string, b: nat)
    requires 0 < b <= |s| && !IsSpace(s[b - 1])
    ensures b <= StripEnd(s)
  {
    if b < |s| && IsSpace(s[|s| - 1]) {
      StripEndBound(s[..|s| - 1], b);
    }
  }

  /** Nothing past a trailing run of whitespace survives `rstrip`. */
  lemma {:induction false} StripEndTrailing(s: string, b: nat)
    requires b <= |s| && forall k :: b <= k < |s| ==> IsSpace(s[k])
    ensures StripEnd(s) <= b
  {
    if b < |s| {
      StripEndTrailing(s[..|s| - 1], b);
    }
  }

  /** `rstrip` of `a + b`, where `b` starts with a non-space character, cuts into `b` only. */
  lemma StripEndAfter(a: string, b: string)
    requires |b| > 0 && !IsSpace(b[0])
    ensures StripEnd(a + b) == |a| + StripEnd(b)
  {
    StripEndSpec(b);
    StripEndBound(b, 1);
    var e := StripEnd(b);
    assert (a + b)[|a| + e - 1] == b[e - 1];
    StripEndBound(a + b, |a| + e);
    forall k | |a| + e <= k < |a + b| ensures IsSpace((a + b)[k]) {
      assert (a + b)[k] == b[k - |a|];
    }
    StripEndTrailing(a + b, |a| + e);
  }

  /**
   * When the first and the last part start with non-space characters, stripping `sep.join(parts)`
   * only removes the trailing whitespace of the last part.
   */
  lemma StripJoin(sep: string, parts: seq<string>)
    requires |parts| >= 2
    requires parts[0] != [] && !IsSpace(parts[0][0])
    requires parts[|parts| - 1] != [] && !IsSpace(parts[|parts| - 1][0])
    ensures Strip(Join(sep, parts)) == Join(sep, parts[..|parts| - 1]) + sep + Strip(parts[|parts| - 1])
    ensures Strip(parts[|parts| - 1]) == parts[|parts| - 1][..StripEnd(parts[|parts| - 1])]
  {
    var n := |parts|;
    var init := parts[..n - 1];
    var last := parts[n - 1];
    assert parts == init + [last];
    JoinSnoc(sep, init, last);
    JoinPartAt(sep, init, 0);
    var a := Join(sep, init) + sep;
    assert a[0] == parts[0][0];
    StripAfterPrefix(a, last);
  }

  /** Stripping `a + b`, both starting with non-space characters, only cuts into `b`'s end. */
  lemma StripAfterPrefix(a: string, b: string)
    requires a != [] && !IsSpace(a[0]) && b != [] && !IsSpace(b[0])
    ensures Strip(a + b) == a + Strip(b)
    ensures Strip(b) == b[..StripEnd(b)]
  {
    StripEndAfter(a, b);
    assert (a + b)[0] == a[0];
    StripStartBound(a + b, 0);
    StripStartBound(b, 0);
    StripEndBound(b, 1);
    var e := StripEnd(b);
    assert (a + b)[0..|a| + e] == a + b[0..e];
  }

  /** Stripping never cuts into a stretch of `x` that starts and ends with non-space characters. */
  lemma StripKeepsCore(x: string, a: nat, b: nat)
    requires a < b <= |x|
    requires !IsSpace(x[a]) && !IsSpace(x[b - 1])
    ensures Contains(Strip(x), x[a..b])
  {
    StripStartBound(x, a);
    StripEndBound(x, b);
    var i, j := StripStart(x), StripEnd(x);
    var r := Strip(x);
    assert r == x[i..j];
    SliceOfSlice(x, i, j, a - i, b - i);
    assert OccursAt(r, x[a..b], a - i);
  }

  /** Stripping keeps every occurrence of a text that starts and ends with non-space characters. */
  lemma StripKeepsInfix(x: string, t: string)
    requires Contains(x, t) && t != [] && !IsSpace(t[0]) && !IsSpace(t[|t| - 1])
    ensures Contains(Strip(x), t)
  {
    var k :| OccursAt(x, t, k);
    assert x[k] == t[0] && x[k + |t| - 1] == t[|t| - 1];
    StripKeepsCore(x, k, k + |t|);
  }

  /** Python's `sep.join(parts)`. */
  function Join(sep: string, parts: seq<string>): string {
    if parts == [] then ""
    else if |parts| == 1 then parts[0]
    else parts[0] + sep + Join(sep, parts[1..])
  }

  /** Joining one more part appends the separator and the part. */
  lemma {:induction false} JoinSnoc(sep: string, parts: seq<string>, p: string)
    ensures Join(sep, parts + [p]) == if parts == [] then p else Join(sep, parts) + sep + p
  {
    if |parts| > 1 {
      assert (parts + [p])[1..] == parts[1..] + [p];
      JoinSnoc(sep, parts[1..], p);
    } else if |parts| == 1 {
      assert (parts + [p])[1..] == [p];
    }
  }

  /** Every part occurs in the joined string. */
  lemma {:induction false} JoinContainsPart(sep: string, parts: seq<string>, i: nat)
    requires i < |parts|
    ensures Contains(Join(sep, parts), parts[i])
  {
    if |parts| == 1 {
      assert OccursAt(Join(sep, parts), parts[0], 0);
    } else if i == 0 {
      assert OccursAt(Join(sep, parts), parts[0], 0);
    } else {
      JoinContainsPart(sep, parts[1..], i - 1);
      var rest := Join(sep, parts[1..]);
      var k :| OccursAt(rest, parts[i], k);
      var pre := parts[0] + sep;
      assert Join(sep, parts) == pre + rest;
      assert (pre + rest)[|pre| + k..|pre| + k + |parts[i]|] == rest[k..k + |parts[i]|];
      assert OccursAt(Join(sep, parts), parts[i], |pre| + k);
    }
  }

  /** Where part `i` begins in `sep.join(parts)`: past every earlier part and its separator. */
  function PartStart(sep: string, parts: seq<string>, i: nat): nat
    requires i < |parts|
  {
    if i == 0 then 0 else |parts[0]| + |sep| + PartStart(sep, parts[1..], i - 1)
  }

  /** Consecutive parts are exactly one separator apart. */
  lemma {:induction false} PartStartStep(sep: string, parts: seq<string>, i: nat)
    requires i + 1 < |parts|
    ensures PartStart(sep, parts, i + 1) == PartStart(sep, parts, i) + |parts[i]| + |sep|
  {
    if i > 0 {
      PartStartStep(sep, parts[1..], i - 1);
    }
  }

  /** Part `i` ends before part `j` begins, for every `i < j`. */
  lemma {:induction false} PartsInOrder(sep: string, parts: seq<string>, i: nat, j: nat)
    requires i < j < |parts|
    ensures PartStart(sep, parts, i) + |parts[i]| + |sep| <= PartStart(sep, parts, j)
    decreases j
  {
    PartStartStep(sep, parts, j - 1);
    if i < j - 1 {
      PartsInOrder(sep, parts, i, j - 1);
    }
  }

  /**
   * The layout of `sep.join(parts)` at part `i`: the part sits at its start, followed by the
   * separator unless it is the last part, which ends the string.
   */
  lemma {:induction false} JoinPartAt(sep: string, parts: seq<string>, i: nat)
    requires i < |parts|
    ensures OccursAt(Join(sep, parts), parts[i], PartStart(sep, parts, i))
    ensures i + 1 < |parts| ==> OccursAt(Join(sep, parts), sep, PartStart(sep, parts, i) + |parts[i]|)
    ensures i + 1 == |parts| ==> PartStart(sep, parts, i) + |parts[i]| == |Join(sep, parts)|
  {
    var j := Join(sep, parts);
    if |parts| == 1 {
      assert j == parts[0];
    } else if i == 0 {
      assert j == parts[0] + sep + Join(sep, parts[1..]);
      assert j[..|parts[0]|] == parts[0];
      assert j[|parts[0]|..|parts[0]| + |sep|] == sep;
    } else {
      JoinPartAt(sep, parts[1..], i - 1);
      var rest := Join(sep, parts[1..]);
      var pre := parts[0] + sep;
      var k := PartStart(sep, parts[1..], i - 1);
      assert j == pre + rest;
      OccursAtShift(pre, rest, parts[i], k);
      if i + 1 < |parts| {
        OccursAtShift(pre, rest, sep, k + |parts[i]|);
      }
    }
  }

  /** An occurrence stays one after a prefix is put in front, shifted by the prefix's length. */
  lemma OccursAtShift(pre: string, s: string, t: string, k: nat)
    requires OccursAt(s, t, k)
    ensures OccursAt(pre + s, t, |pre| + k)
  {
    assert (pre + s)[|pre| + k..|pre| + k + |t|] == s[k..k + |t|];
  }

  /**
   * `out` holds `parts` one after another, `sep` between each two: each part at its start, a
   * separator after all but the last, parts in order, and the last one ending the text.
   */
  predicate LaidOut(out: string, sep: string, parts: seq<string>) {
    && (forall i :: 0 <= i < |parts| ==> OccursAt(out, parts[i], PartStart(sep, parts, i)))
    && (forall i :: 0 <= i < |parts| - 1 ==> OccursAt(out, sep, PartStart(sep, parts, i) + |parts[i]|))
    && (forall i, j :: 0 <= i < j < |parts| ==> PartStart(sep, parts, i) + |parts[i]| + |sep| <= PartStart(sep, parts, j))
    && (parts != [] ==> PartStart(sep, parts, |parts| - 1) + |parts[|parts| - 1]| == |out|)
  }

  /** `sep.join(parts)` is laid out part by part. */
  lemma JoinLayout(sep: string, parts: seq<string>)
    ensures LaidOut(Join(sep, parts), sep, parts)
  {
    forall i | 0 <= i < |parts|
      ensures OccursAt(Join(sep, parts), parts[i], PartStart(sep, parts, i))
      ensures i < |parts| - 1 ==> OccursAt(Join(sep, parts), sep, PartStart(sep, parts, i) + |parts[i]|)
      ensures i == |parts| - 1 ==> PartStart(sep, parts, i) + |parts[i]| == |Join(sep, parts)|
    {
      JoinPartAt(sep, parts, i);
    }
    forall i, j | 0 <= i < j < |parts|
      ensures PartStart(sep, parts, i) + |parts[i]| + |sep| <= PartStart(sep, parts, j)
    {
      PartsInOrder(sep, parts, i, j);
    }
  }

  /** A prefix of part `i` occurs in `sep.join(parts)` where part `i` begins. */
  lemma JoinPrefixAt(sep: string, parts: seq<string>, i: nat, t: string)
    requires i < |parts| && |t| <= |parts[i]| && parts[i][..|t|] == t
    ensures OccursAt(Join(sep, parts), t, PartStart(sep, parts, i))
  {
    var p := PartStart(sep, parts, i);
    JoinPartAt(sep, parts, i);
    SliceOfSlice(Join(sep, parts), p, p + |parts[i]|, 0, |t|);
  }

  /**
   * In a text that starts with a non-space character, stripping keeps every occurrence of a text
   * that ends with one, at the same index.
   */
  lemma StripKeepsAt(x: string, t: string, p: nat)
    requires OccursAt(x, t, p) && t != [] && !IsSpace(t[|t| - 1])
    requires x != [] && !IsSpace(x[0])
    ensures OccursAt(Strip(x), t, p)
  {
    assert x[p + |t| - 1] == t[|t| - 1];
    StripEndBound(x, p + |t|);
    var e := StripEnd(x);
    assert Strip(x) == x[0..e];
    SliceOfSlice(x, 0, e, p, p + |t|);
  }

  function DigitChar(d: nat): (c: char)
    requires d < 10
    ensures IsAsciiDigit(c) && c as int - '0' as int == d
  {
    ('0' as int + d) as char
  }

  predicate AllDigits(s: string) { forall k :: 0 <= k < |s| ==> IsAsciiDigit(s[k]) }

  /** The number a string of decimal digits denotes. */
  function DecimalValue(s: string): nat
    requires AllDigits(s)
  {
    if s == [] then 0 else DecimalValue(s[..|s| - 1]) * 10 + (s[|s| - 1] as int - '0' as int)
  }

  /** Python's `str(n)` for a natural number: digits, no leading zero. */
  function NatToDecimal(n: nat): (s: string)
    ensures |s| >= 1 && AllDigits(s)
    ensures s[0] == '0' ==> n == 0
  {
    if n < 10 then [DigitChar(n)] else NatToDecimal(n / 10) + [DigitChar(n % 10)]
  }

  /** Rendering a number in decimal and reading it back gives the number. */
  lemma {:induction false} DecimalRoundTrip(n: nat)
    ensures DecimalValue(NatToDecimal(n)) == n
  {
    if n >= 10 {
      DecimalRoundTrip(n / 10);
      var s := NatToDecimal(n);
      assert s[..|s| - 1] == NatToDecimal(n / 10);
    }
  }

  /** Every element of `xs` before index `n`, or all of `xs` when shorter: `xs[:n]`. */
  function Take<T>(xs: seq<T>, n: nat): (r: seq<T>)
    ensures |r| == if |xs| < n then |xs| else n
    ensures forall i :: 0 <= i < |r| ==> r[i] == xs[i]
  {
    if |xs| < n then xs else xs[..n]
  }

  /** Python's `str(i)` / `repr(i)` for an integer. */
  function IntToDecimal(i: int): string {
    if i < 0 then "-" + NatToDecimal(-i) else NatToDecimal(i)
  }

  function Zeros(k: nat): (s: string)
    ensures |s| == k && forall j :: 0 <= j < k ==> s[j] == '0'
  {
    if k == 0 then "" else Zeros(k - 1) + "0"
  }

  lemma {:induction false} LeadingZerosValue(k: nat, s: string)
    requires AllDigits(s)
    ensures AllDigits(Zeros(k) + s) && DecimalValue(Zeros(k) + s) == DecimalValue(s)
    decreases |s|
  {
    if s == [] {
      ZerosValue(k);
      assert Zeros(k) + s == Zeros(k);
    } else {
      var t := Zeros(k) + s;
      assert t[..|t| - 1] == Zeros(k) + s[..|s| - 1];
      LeadingZerosValue(k, s[..|s| - 1]);
    }
  }

  lemma {:induction false} ZerosValue(k: nat)
    ensures AllDigits(Zeros(k)) && DecimalValue(Zeros(k)) == 0
  {
    if k > 0 {
      assert Zeros(k)[..k - 1] == Zeros(k - 1);
      ZerosValue(k - 1);
    }
  }

  /** Python's `f"{n:03d}"`: at least three digits, zero-padded on the left, denoting `n`. */
  function ZeroPad3(n: nat): (s: string)
    ensures |s| == if |NatToDecimal(n)| < 3 then 3 else |NatToDecimal(n)|
    ensures AllDigits(s) && DecimalValue(s) == n
  {
    var d := NatToDecimal(n);
    DecimalRoundTrip(n);
    LeadingZerosValue(if |d| < 3 then 3 - |d| else 0, d);
    Zeros(if |d| < 3 then 3 - |d| else 0) + d
  }

  /** Python's `a <= b` on strings: code-point lexicographic order. */
  predicate LexLe(a: string, b: string) {
    a == [] || (b != [] && (a[0] < b[0] || (a[0] == b[0] && LexLe(a[1..], b[1..]))))
  }

  lemma {:induction false} LexLeTotal(a: string, b: string)
    ensures LexLe(a, b) || LexLe(b, a)
  {
    if a != [] && b != [] && a[0] == b[0] {
      LexLeTotal(a[1..], b[1..]);
    }
  }

  lemma {:induction false} LexLeTransitive(a: string, b: string, c: string)
    requires LexLe(a, b) && LexLe(b, c)
    ensures LexLe(a, c)
  {
    if a != [] && b != [] && c != [] && a[0] == b[0] && b[0] == c[0] {
      LexLeTransitive(a[1..], b[1..], c[1..]);
    }
  }

  predicate SortedByName<T>(fs: seq<(string, T)>) {
    forall i, j :: 0 <= i < j < |fs| ==> LexLe(fs[i].0, fs[j].0)
  }

  function InsertByName<T>(x: (string, T), fs: seq<(string, T)>): (r: seq<(string, T)>)
    ensures multiset(r) == multiset(fs) + multiset{x}
  {
    if fs == [] then [x]
    else if LexLe(x.0, fs[0].0) then [x] + fs
    else
      assert fs == [fs[0]] + fs[1..];
      [fs[0]] + InsertByName(x, fs[1..])
  }

  /** A sorted list stays sorted when an entry that orders before all of it is put in front. */
  lemma ConsSorted<T>(f: (string, T), rest: seq<(string, T)>)
    requires SortedByName(rest)
    requires forall i :: 0 <= i < |rest| ==> LexLe(f.0, rest[i].0)
    ensures SortedByName([f] + rest)
  {
    var r := [f] + rest;
    forall i, j | 0 <= i < j < |r| ensures LexLe(r[i].0, r[j].0) {
      assert r[j] == rest[j - 1];
      if i > 0 {
        assert r[i] == rest[i - 1];
      }
    }
  }

  /** Inserting keeps every entry above a bound that the new entry and the old ones respect. */
  lemma InsertByNameBound<T>(b: string, x: (string, T), fs: seq<(string, T)>)
    requires LexLe(b, x.0)
    requires forall i :: 0 <= i < |fs| ==> LexLe(b, fs[i].0)
    ensures forall i :: 0 <= i < |InsertByName(x, fs)| ==> LexLe(b, InsertByName(x, fs)[i].0)
  {
    var r := InsertByName(x, fs);
    forall i | 0 <= i < |r| ensures LexLe(b, r[i].0) {
      assert r[i] in multiset(r);
      if r[i] != x {
        assert r[i] in multiset(fs);
        var j :| 0 <= j < |fs| && fs[j] == r[i];
      }
    }
  }

  lemma {:induction false} InsertByNameSorted<T>(x: (string, T), fs: seq<(string, T)>)
    requires SortedByName(fs)
    ensures SortedByName(InsertByName(x, fs))
  {
    if fs == [] {
    } else if LexLe(x.0, fs[0].0) {
      forall j | 0 <= j < |fs| ensures LexLe(x.0, fs[j].0) {
        if j > 0 {
          LexLeTransitive(x.0, fs[0].0, fs[j].0);
        }
      }
      ConsSorted(x, fs);
    } else {
      InsertByNameSorted(x, fs[1..]);
      LexLeTotal(x.0, fs[0].0);
      InsertByNameBound(fs[0].0, x, fs[1..]);
      ConsSorted(fs[0], InsertByName(x, fs[1..]));
    }
  }

  /** Python's `sorted(...)` of directory entries by file name. */
  function SortByName<T>(fs: seq<(string, T)>): (r: seq<(string, T)>)
    ensures SortedByName(r)
    ensures multiset(r) == multiset(fs)
  {
    if fs == [] then []
    else
      assert fs == [fs[0]] + fs[1..];
      InsertByNameSorted(fs[0], SortByName(fs[1..]));
      InsertByName(fs[0], SortByName(fs[1..]))
  }
}
