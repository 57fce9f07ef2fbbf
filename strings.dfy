/**
 * The JavaScript string operations the gateway relies on, over `string`
 * (`seq<char>`): `startsWith`, `includes`, `indexOf`, `replace` with a
 * string pattern (first occurrence only), `split` on one character, `trim`,
 * ASCII case mapping, and decimal rendering of non-negative numbers.
 */
module Strings {
  import opened Wrappers

  /** `s.startsWith(p)`. */
  predicate StartsWith(s: string, p: string)
  {
    |p| <= |s| && s[..|p|] == p
  }

  /** `s.endsWith(p)`. */
  predicate EndsWith(s: string, p: string)
  {
    |p| <= |s| && s[|s| - |p|..] == p
  }

  /** `pat` occurs in `s` starting at index `i`. */
  predicate OccursAt(s: string, pat: string, i: nat)
  {
    i + |pat| <= |s| && s[i..i + |pat|] == pat
  }

  /** `pat` occurs in `s` at `i` and nowhere before it. */
  predicate FirstAt(s: string, pat: string, i: nat)
  {
    OccursAt(s, pat, i) && forall j: nat :: j < i ==> !OccursAt(s, pat, j)
  }

  /** `s.indexOf(pat, from)`: the first occurrence of `pat` at or after `from`. */
  function IndexOfFrom(s: string, pat: string, from: nat): (r: Option<nat>)
    ensures r.Some? ==> from <= r.value && OccursAt(s, pat, r.value)
    ensures r.Some? ==> forall j: nat :: from <= j < r.value ==> !OccursAt(s, pat, j)
    ensures r.None? ==> forall j: nat :: from <= j ==> !OccursAt(s, pat, j)
    decreases |s| - from
  {
    if from + |pat| > |s| then None
    else if s[from..from + |pat|] == pat then Some(from)
    else IndexOfFrom(s, pat, from + 1)
  }

  /** `s.indexOf(pat)`. */
  function IndexOf(s: string, pat: string): Option<nat>
  {
    IndexOfFrom(s, pat, 0)
  }

  /** `s.includes(pat)`. */
  predicate Contains(s: string, pat: string)
  {
    IndexOf(s, pat).Some?
  }

  /** Contains is exactly "occurs at some index". */
  lemma ContainsIff(s: string, pat: string)
    ensures Contains(s, pat) <==> exists i: nat :: OccursAt(s, pat, i)
  {
    if Contains(s, pat) {
      assert OccursAt(s, pat, IndexOf(s, pat).value);
    }
  }

  /** Any occurrence witnesses `Contains`. */
  lemma OccursContains(s: string, pat: string, i: nat)
    requires OccursAt(s, pat, i)
    ensures Contains(s, pat)
  {
    ContainsIff(s, pat);
  }

  /** Every string is found in itself as its own prefix. */
  lemma ContainsPrefix(s: string, p: string, t: string)
    ensures Contains(p + s + t, s)
  {
    assert (p + s + t)[|p|..|p| + |s|] == s;
    OccursContains(p + s + t, s, |p|);
  }

  /**
   * `s.replace(pat, rep)` with a string pattern: only the first occurrence
   * is replaced, and a string without `pat` is returned unchanged.
   */
  function ReplaceFirst(s: string, pat: string, rep: string): (r: string)
    ensures (forall j: nat :: !OccursAt(s, pat, j)) ==> r == s
    ensures forall i: nat :: FirstAt(s, pat, i) ==> r == s[..i] + rep + s[i + |pat|..]
  {
    match IndexOf(s, pat)
    case None => s
    case Some(i) => s[..i] + rep + s[i + |pat|..]
  }

  /** A pattern at the very front is the one `replace` rewrites. */
  lemma ReplaceFirstAtFront(pat: string, t: string, rep: string)
    ensures ReplaceFirst(pat + t, pat, rep) == rep + t
  {
    var s := pat + t;
    assert s[0..|pat|] == pat;
    assert IndexOf(s, pat) == Some(0);
    assert s[..0] + rep + s[|pat|..] == rep + t;
  }

  /** A string holding a pattern holds every character of it. */
  lemma ContainsChar(s: string, pat: string, c: char)
    requires Contains(s, pat) && c in pat
    ensures c in s
  {
    var i := IndexOf(s, pat).value;
    var k :| 0 <= k < |pat| && pat[k] == c;
    assert s[i + k] == s[i..i + |pat|][k];
  }

  /** Replacing in a string that lacks the pattern changes nothing. */
  lemma ReplaceFirstAbsent(s: string, pat: string, rep: string)
    requires !Contains(s, pat)
    ensures ReplaceFirst(s, pat, rep) == s
  {
    ContainsIff(s, pat);
  }

  /** No proper suffix of `pat` is also a prefix of it, so two occurrences never overlap. */
  predicate BorderFree(pat: string)
  {
    forall k :: 0 < k < |pat| ==> pat[k..] != pat[..|pat| - k]
  }

  /** No proper suffix of `pat` is a prefix of `tail`: `pat` cannot straddle a seam in front of `tail`. */
  predicate NoStraddle(pat: string, tail: string)
  {
    forall m :: 0 < m < |pat| && m <= |tail| ==> tail[..m] != pat[|pat| - m..]
  }

  /** A string with `pat` glued after a `pat`-free prefix has its first occurrence at the seam. */
  lemma ReplaceFirstAtSeam(base: string, pat: string, rest: string, rep: string)
    requires !Contains(base, pat) && BorderFree(pat)
    ensures ReplaceFirst(base + pat + rest, pat, rep) == base + rep + rest
  {
    var s := base + pat + rest;
    var n := |base|;
    assert s[n..n + |pat|] == pat;
    ContainsIff(base, pat);
    forall j: nat | j < n ensures !OccursAt(s, pat, j) {
      if j + |pat| <= n {
        assert s[j..j + |pat|] == base[j..j + |pat|];
        assert !OccursAt(base, pat, j);
      } else {
        var k := n - j;
        assert s[j..j + |pat|][k..] == pat[..|pat| - k];
        assert pat[k..] != pat[..|pat| - k];
      }
    }
    assert OccursAt(s, pat, n);
    assert s[..n] == base;
    assert s[n + |pat|..] == rest;
  }

  /** A pattern found neither in `base`, nor in `tail`, nor across the seam is not in `base + tail`. */
  lemma AbsentAcrossSeam(base: string, tail: string, pat: string)
    requires |pat| > 0
    requires !Contains(base, pat) && !Contains(tail, pat) && NoStraddle(pat, tail)
    ensures !Contains(base + tail, pat)
  {
    ContainsIff(base, pat);
    ContainsIff(tail, pat);
    forall j: nat ensures !OccursAt(base + tail, pat, j) {
      AbsentAt(base, tail, pat, j);
    }
    ContainsIff(base + tail, pat);
  }

  /** One position of `AbsentAcrossSeam`. */
  lemma AbsentAt(base: string, tail: string, pat: string, j: nat)
    requires |pat| > 0 && NoStraddle(pat, tail)
    requires forall i: nat :: !OccursAt(base, pat, i)
    requires forall i: nat :: !OccursAt(tail, pat, i)
    ensures !OccursAt(base + tail, pat, j)
  {
    var s := base + tail;
    var n := |base|;
    if j + |pat| <= |s| {
      var w := s[j..j + |pat|];
      if j + |pat| <= n {
        assert w == base[j..j + |pat|];
        assert !OccursAt(base, pat, j);
      } else if j < n {
        var m := j + |pat| - n;
        assert 0 < m < |pat| && m <= |tail|;
        assert w[|pat| - m..] == s[n..j + |pat|] == tail[..m];
        assert w[|pat| - m..] != pat[|pat| - m..];
      } else {
        assert w == tail[j - n..j - n + |pat|];
        assert !OccursAt(tail, pat, j - n);
      }
    }
  }

  /** Appending keeps every occurrence. */
  lemma ContainsExtend(s: string, t: string, pat: string)
    requires Contains(s, pat)
    ensures Contains(s + t, pat)
  {
    var i := IndexOf(s, pat).value;
    assert (s + t)[i..i + |pat|] == s[i..i + |pat|];
    OccursContains(s + t, pat, i);
  }

  /** `s.split(c)` for a one-character separator: the pieces between separators, in order. */
  function Split(s: string, c: char): (parts: seq<string>)
    ensures |parts| >= 1
    ensures forall k :: 0 <= k < |parts| ==> c !in parts[k]
  {
    if s == [] then [[]]
    else
      var rest := Split(s[1..], c);
      if s[0] == c then [[]] + rest else [[s[0]] + rest[0]] + rest[1..]
  }

  /** `parts.join(c)`. */
  function Join(parts: seq<string>, c: char): string
    requires |parts| >= 1
  {
    if |parts| == 1 then parts[0] else parts[0] + [c] + Join(parts[1..], c)
  }

  /** Joining the pieces of a split restores the string. */
  lemma {:induction false} JoinSplit(s: string, c: char)
    ensures Join(Split(s, c), c) == s
  {
    if s != [] {
      var rest := Split(s[1..], c);
      JoinSplit(s[1..], c);
      if s[0] == c {
        assert ([[]] + rest)[1..] == rest;
      } else if |rest| > 1 {
        assert ([[s[0]] + rest[0]] + rest[1..])[1..] == rest[1..];
      }
    }
  }

  /** A string without the separator splits into itself alone. */
  lemma {:induction false} SplitNoSeparator(p: string, c: char)
    requires c !in p
    ensures Split(p, c) == [p]
  {
    if p != [] {
      SplitNoSeparator(p[1..], c);
      assert [p[0]] + p[1..] == p;
    }
  }

  /** A separator-free first piece is split off unchanged. */
  lemma {:induction false} SplitFirstPiece(p: string, t: string, c: char)
    requires c !in p
    ensures Split(p + [c] + t, c) == [p] + Split(t, c)
  {
    var s := p + [c] + t;
    if p == [] {
      assert s[1..] == t;
    } else {
      assert s[1..] == p[1..] + [c] + t;
      SplitFirstPiece(p[1..], t, c);
      assert [p[0]] + p[1..] == p;
    }
  }

  /** Splitting a join of separator-free pieces gives back the pieces. */
  lemma {:induction false} SplitJoin(parts: seq<string>, c: char)
    requires |parts| >= 1
    requires forall k :: 0 <= k < |parts| ==> c !in parts[k]
    ensures Split(Join(parts, c), c) == parts
  {
    if |parts| == 1 {
      SplitNoSeparator(parts[0], c);
    } else {
      SplitJoin(parts[1..], c);
      SplitFirstPiece(parts[0], Join(parts[1..], c), c);
      assert [parts[0]] + parts[1..] == parts;
    }
  }

  /** `c` is a JavaScript white-space or line-terminator character (what `trim` removes). */
  predicate IsJsSpace(c: char)
  {
    var n := c as int;
    || (0x09 <= n <= 0x0D) || n == 0x20 || n == 0xA0 || n == 0x1680
    || (0x2000 <= n <= 0x200A) || n == 0x2028 || n == 0x2029
    || n == 0x202F || n == 0x205F || n == 0x3000 || n == 0xFEFF
  }

  /** `s.trimStart()`: drops the leading white space and nothing else. */
  function TrimStart(s: string): (r: string)
    ensures |r| <= |s| && r == s[|s| - |r|..]
    ensures forall i :: 0 <= i < |s| - |r| ==> IsJsSpace(s[i])
    ensures r != [] ==> !IsJsSpace(r[0])
  {
    if |s| > 0 && IsJsSpace(s[0]) then TrimStart(s[1..]) else s
  }

  /** `s.trimEnd()`: drops the trailing white space and nothing else. */
  function TrimEnd(s: string): (r: string)
    ensures |r| <= |s| && r == s[..|r|]
    ensures forall i :: |r| <= i < |s| ==> IsJsSpace(s[i])
    ensures r != [] ==> !IsJsSpace(r[|r| - 1])
  {
    if |s| > 0 && IsJsSpace(s[|s| - 1]) then TrimEnd(s[..|s| - 1]) else s
  }

  /** `s.trim()`. */
  function Trim(s: string): string
  {
    TrimEnd(TrimStart(s))
  }

  /** A non-empty trim result neither starts nor ends with white space. */
  lemma TrimEnds(s: string)
    ensures var r := Trim(s); r != [] ==> !IsJsSpace(r[0]) && !IsJsSpace(r[|r| - 1])
  {
    var a := TrimStart(s);
    var r := TrimEnd(a);
    if r != [] {
      assert r[0] == a[0];
    }
  }

  /** A string that starts and ends with non-space characters is its own trim. */
  lemma TrimNoSpace(s: string)
    requires s != [] ==> !IsJsSpace(s[0]) && !IsJsSpace(s[|s| - 1])
    ensures Trim(s) == s
  {
  }

  /** Trimming twice is trimming once. */
  lemma TrimIdempotent(s: string)
    ensures Trim(Trim(s)) == Trim(s)
  {
    TrimEnds(s);
    TrimNoSpace(Trim(s));
  }

  /** Text made only of white space. */
  predicate AllSpace(s: string)
  {
    forall i :: 0 <= i < |s| ==> IsJsSpace(s[i])
  }

  /** Leading white space before a text that does not start with white space is what `trimStart` removes. */
  lemma {:induction false} TrimStartPadded(a: string, t: string)
    requires AllSpace(a) && (t != [] ==> !IsJsSpace(t[0]))
    ensures TrimStart(a + t) == t
  {
    if a == [] {
      assert a + t == t;
    } else {
      assert (a + t)[0] == a[0];
      assert (a + t)[1..] == a[1..] + t;
      TrimStartPadded(a[1..], t);
    }
  }

  /** Trailing white space after a text that does not end with white space is what `trimEnd` removes. */
  lemma {:induction false} TrimEndPadded(t: string, b: string)
    requires AllSpace(b) && (t != [] ==> !IsJsSpace(t[|t| - 1]))
    ensures TrimEnd(t + b) == t
    decreases |b|
  {
    if b == [] {
      assert t + b == t;
    } else {
      var b' := b[..|b| - 1];
      assert (t + b)[|t + b| - 1] == b[|b| - 1];
      assert (t + b)[..|t + b| - 1] == t + b';
      TrimEndPadded(t, b');
    }
  }

  /** Trimming white space around a text without white space at its ends gives the text. */
  lemma TrimPadded(a: string, t: string, b: string)
    requires AllSpace(a) && AllSpace(b)
    requires t != [] ==> !IsJsSpace(t[0]) && !IsJsSpace(t[|t| - 1])
    ensures Trim(a + t + b) == t
  {
    assert a + t + b == a + (t + b);
    if t == [] {
      assert t + b == b;
      assert AllSpace(a + b);
      TrimStartPadded(a + b, []);
      assert a + b == (a + b) + [];
    } else {
      assert (t + b)[0] == t[0];
      TrimStartPadded(a, t + b);
      TrimEndPadded(t, b);
    }
  }

  /** `c.toLowerCase()` restricted to ASCII letters. */
  function LowerChar(c: char): char
  {
    if 'A' <= c <= 'Z' then (c as int + 32) as char else c
  }

  /** `c.toUpperCase()` restricted to ASCII letters. */
  function UpperChar(c: char): char
  {
    if 'a' <= c <= 'z' then (c as int - 32) as char else c
  }

  /** `s.toLowerCase()` (ASCII letters only). */
  function Lower(s: string): (r: string)
    ensures |r| == |s|
  {
    seq(|s|, i requires 0 <= i < |s| => LowerChar(s[i]))
  }

  /** `s.toUpperCase()` (ASCII letters only). */
  function Upper(s: string): (r: string)
    ensures |r| == |s|
  {
    seq(|s|, i requires 0 <= i < |s| => UpperChar(s[i]))
  }

  /** `new RegExp(pat, 'i').test(s)` for a literal pattern: case-insensitive containment. */
  predicate ContainsIgnoreCase(s: string, pat: string)
  {
    Contains(Lower(s), Lower(pat))
  }

  /** Removes every occurrence of `c` (`s.replace(/c/g, '')`). */
  function RemoveAll(s: string, c: char): (r: string)
    ensures c !in r
    ensures |r| <= |s|
    ensures forall x :: x != c ==> (x in r <==> x in s)
    ensures c !in s ==> r == s
  {
    if s == [] then []
    else if s[0] == c then RemoveAll(s[1..], c)
    else [s[0]] + RemoveAll(s[1..], c)
  }

  /** Removal works character by character, so it distributes over concatenation. */
  lemma {:induction false} RemoveAllAppend(a: string, b: string, c: char)
    ensures RemoveAll(a + b, c) == RemoveAll(a, c) + RemoveAll(b, c)
  {
    if a == [] {
      assert a + b == b;
    } else {
      assert (a + b)[0] == a[0];
      assert (a + b)[1..] == a[1..] + b;
      RemoveAllAppend(a[1..], b, c);
    }
  }

  /** The decimal digit for `d < 10`. */
  function DigitChar(d: nat): (c: char)
    requires d < 10
    ensures '0' <= c <= '9'
  {
    ('0' as int + d) as char
  }

  /** The value of a decimal digit character. */
  function DigitValue(c: char): (d: nat)
    requires '0' <= c <= '9'
    ensures d < 10 && DigitChar(d) == c
  {
    c as int - '0' as int
  }

  /** `n.toString()` for a non-negative integer: decimal, no leading zeros. */
  function NatToDecimal(n: nat): (r: string)
    ensures |r| >= 1
    ensures forall i :: 0 <= i < |r| ==> '0' <= r[i] <= '9'
    ensures |r| > 1 ==> r[0] != '0'
    decreases n
  {
    if n < 10 then [DigitChar(n)] else NatToDecimal(n / 10) + [DigitChar(n % 10)]
  }

  /** `String(n)` for any integer: a minus sign before the decimal digits of a negative value. */
  function IntToDecimal(n: int): string
  {
    if n < 0 then "-" + NatToDecimal(-n) else NatToDecimal(n)
  }

  /** The number a string of decimal digits denotes. */
  function DecimalValue(s: string): nat
    requires forall i :: 0 <= i < |s| ==> '0' <= s[i] <= '9'
  {
    if s == [] then 0 else 10 * DecimalValue(s[..|s| - 1]) + DigitValue(s[|s| - 1])
  }

  /** Reading back the decimal rendering of `n` gives `n`. */
  lemma {:induction false} DecimalRoundTrip(n: nat)
    ensures DecimalValue(NatToDecimal(n)) == n
  {
    var r := NatToDecimal(n);
    if n >= 10 {
      DecimalRoundTrip(n / 10);
      assert r[..|r| - 1] == NatToDecimal(n / 10);
    }
  }
}
