/** String helpers shared by the renderers and the migrations folder: joining, single-character
    replacement, decimal digits and the byte-wise order Rust uses to compare `str` values. */
module Text {
  import opened Wrappers

  predicate StartsWith(s: string, p: string) {
    |p| <= |s| && s[..|p|] == p
  }

  predicate EndsWith(s: string, p: string) {
    |p| <= |s| && s[|s| - |p|..] == p
  }

  lemma PrefixAndSuffix(a: string, b: string)
    ensures StartsWith(a + b, a) && EndsWith(a + b, b)
  {
    assert (a + b)[..|a|] == a;
    assert (a + b)[|a + b| - |b|..] == b;
  }

  lemma EndsWithAppend(a: string, b: string, p: string)
    requires EndsWith(b, p)
    ensures EndsWith(a + b, p)
  {
    assert (a + b)[|a + b| - |p|..] == b[|b| - |p|..];
  }

  /** `parts.join(sep)`: the parts in order with `sep` between neighbours. */
  function Join(parts: seq<string>, sep: string): string
    decreases |parts|
  {
    if |parts| == 0 then ""
    else if |parts| == 1 then parts[0]
    else parts[0] + sep + Join(parts[1..], sep)
  }

  lemma {:induction false} JoinEndsWithLast(parts: seq<string>, sep: string)
    requires |parts| > 0
    ensures EndsWith(Join(parts, sep), parts[|parts| - 1])
    decreases |parts|
  {
    if |parts| > 1 {
      JoinEndsWithLast(parts[1..], sep);
      EndsWithAppend(parts[0] + sep, Join(parts[1..], sep), parts[|parts| - 1]);
    } else {
      assert Join(parts, sep) == parts[0];
    }
  }

  /** `sep` occurs in `s` starting at position `j`. */
  predicate OccursAt(s: string, sep: string, j: nat) {
    j + |sep| <= |s| && s[j..j + |sep|] == sep
  }

  /** `sep` occurs nowhere in `s`. */
  ghost predicate Free(s: string, sep: string) {
    forall j: nat :: !OccursAt(s, sep, j)
  }

  /** The position of the first occurrence of a non-empty `sep` in `s`. */
  function IndexOf(s: string, sep: string): (r: Option<nat>)
    requires |sep| > 0
    ensures r.None? ==> Free(s, sep)
    ensures r.Some? ==> OccursAt(s, sep, r.value) && forall j: nat :: j < r.value ==> !OccursAt(s, sep, j)
    decreases |s|
  {
    if |s| < |sep| then None
    else if s[..|sep|] == sep then Some(0)
    else
      var r := IndexOf(s[1..], sep);
      forall j: nat | 1 <= j && OccursAt(s, sep, j) ensures OccursAt(s[1..], sep, j - 1) {
        assert s[1..][j - 1..j - 1 + |sep|] == s[j..j + |sep|];
      }
      if r.None? then None
      else
        assert s[r.value + 1..r.value + 1 + |sep|] == s[1..][r.value..r.value + |sep|];
        Some(r.value + 1)
  }

  /** An occurrence that ends within `a` is one in `a` itself, whatever follows. */
  lemma OccursInPrefix(a: string, b: string, sep: string, j: nat)
    requires j + |sep| <= |a|
    ensures OccursAt(a + b, sep, j) == OccursAt(a, sep, j)
  {
    assert (a + b)[j..j + |sep|] == a[j..j + |sep|];
  }

  /** An occurrence with none before it is the one `IndexOf` finds. */
  lemma FirstOccurrence(s: string, sep: string, i: nat)
    requires |sep| > 0 && OccursAt(s, sep, i)
    requires forall j: nat :: j < i ==> !OccursAt(s, sep, j)
    ensures IndexOf(s, sep) == Some(i)
  {
  }

  /** `s.split(sep)`: the pieces between the occurrences of `sep`, read from the left. */
  function Split(s: string, sep: string): (r: seq<string>)
    requires |sep| > 0
    ensures |r| > 0
    decreases |s|
  {
    match IndexOf(s, sep)
    case None => [s]
    case Some(i) => [s[..i]] + Split(s[i + |sep|..], sep)
  }

  /** A part whose first `sep` in `part + sep` is the separator holds no `sep` of its own. */
  lemma SplitLastPart(x: string, sep: string)
    requires |sep| > 0 && IndexOf(x + sep, sep) == Some(|x|)
    ensures Split(x, sep) == [x]
  {
    forall j: nat | OccursAt(x, sep, j) ensures OccursAt(x + sep, sep, j) {
      OccursInPrefix(x, sep, sep, j);
    }
    assert IndexOf(x, sep).None?;
  }

  /** The first `sep` after such a part is the separator, whatever follows it. */
  lemma SeparatorAfterPart(x: string, sep: string, rest: string)
    requires |sep| > 0 && IndexOf(x + sep, sep) == Some(|x|)
    ensures IndexOf(x + sep + rest, sep) == Some(|x|)
  {
    forall j: nat | j <= |x| ensures OccursAt(x + sep + rest, sep, j) == OccursAt(x + sep, sep, j) {
      OccursInPrefix(x + sep, rest, sep, j);
    }
    FirstOccurrence(x + sep + rest, sep, |x|);
  }

  /** Splitting a join gives back the parts, as long as `sep` first occurs in `part + sep` at
      the separator itself, for every part: no part holds `sep`, and no part ends with a
      beginning of `sep` that the separator would complete. */
  lemma {:induction false} SplitJoin(parts: seq<string>, sep: string)
    requires |sep| > 0 && |parts| > 0
    requires forall k :: 0 <= k < |parts| ==> IndexOf(parts[k] + sep, sep) == Some(|parts[k]|)
    ensures Split(Join(parts, sep), sep) == parts
    decreases |parts|
  {
    var x := parts[0];
    assert IndexOf(x + sep, sep) == Some(|x|);
    if |parts| == 1 {
      assert Join(parts, sep) == x;
      SplitLastPart(x, sep);
    } else {
      var rest := Join(parts[1..], sep);
      var s := x + sep + rest;
      assert Join(parts, sep) == s;
      SeparatorAfterPart(x, sep, rest);
      assert s[..|x|] == x;
      assert s[|x| + |sep|..] == rest;
      assert Split(s, sep) == [x] + Split(rest, sep);
      assert forall k :: 0 <= k < |parts[1..]| ==> parts[1..][k] == parts[k + 1];
      SplitJoin(parts[1..], sep);
      assert parts == [x] + parts[1..];
    }
  }

  /** Number of occurrences of `c` in `s`. */
  function Count(s: string, c: char): nat {
    if s == [] then 0 else (if s[0] == c then 1 else 0) + Count(s[1..], c)
  }

  /** `s.replace(c, with)`: every occurrence of `c` replaced by `with`, everything else kept. */
  function Replace(s: string, c: char, with: string): (r: string)
    ensures c !in with ==> c !in r
  {
    if s == [] then ""
    else (if s[0] == c then with else [s[0]]) + Replace(s[1..], c, with)
  }

  /** Replacing a character by a single character keeps the length and every other position. */
  lemma {:induction false} ReplaceByOneChar(s: string, c: char, d: char)
    ensures |Replace(s, c, [d])| == |s|
    ensures forall i :: 0 <= i < |s| ==> Replace(s, c, [d])[i] == (if s[i] == c then d else s[i])
  {
    if s != [] {
      ReplaceByOneChar(s[1..], c, d);
      var r := Replace(s, c, [d]);
      assert r == [if s[0] == c then d else s[0]] + Replace(s[1..], c, [d]);
      forall i | 0 < i < |s| ensures r[i] == (if s[i] == c then d else s[i]) {
        assert r[i] == Replace(s[1..], c, [d])[i - 1];
      }
    }
  }

  // ---- decimal digits ----

  predicate IsDigit(ch: char) {
    '0' <= ch <= '9'
  }

  predicate AllDigits(s: string) {
    forall i :: 0 <= i < |s| ==> IsDigit(s[i])
  }

  function DigitChar(d: nat): (ch: char)
    requires d < 10
    ensures IsDigit(ch)
  {
    (48 + d) as char
  }

  function DigitValue(ch: char): nat
    requires IsDigit(ch)
  {
    (ch as int) - 48
  }

  /** Decimal rendering of a natural number, as Rust's `Display` for unsigned integers prints it. */
  function NatToString(n: nat): (r: string)
    ensures |r| > 0 && AllDigits(r)
  {
    if n < 10 then [DigitChar(n)] else NatToString(n / 10) + [DigitChar(n % 10)]
  }

  /** Value of a string of decimal digits. */
  function ParseNat(s: string): nat
    requires AllDigits(s)
  {
    if |s| == 0 then 0 else ParseNat(s[..|s| - 1]) * 10 + DigitValue(s[|s| - 1])
  }

  lemma {:induction false} ParseNatToString(n: nat)
    ensures ParseNat(NatToString(n)) == n
  {
    var s := NatToString(n);
    if n >= 10 {
      ParseNatToString(n / 10);
      assert s[..|s| - 1] == NatToString(n / 10);
    }
  }

  /** Length of the longest prefix of `s` made of digits. */
  function DigitRun(s: string): (k: nat)
    ensures k <= |s| && AllDigits(s[..k])
  {
    if s == [] || !IsDigit(s[0]) then 0
    else
      var k := 1 + DigitRun(s[1..]);
      assert s[..k] == [s[0]] + s[1..][..k - 1];
      k
  }

  lemma {:induction false} DigitRunOf(d: string, rest: string)
    requires AllDigits(d)
    requires rest == [] || !IsDigit(rest[0])
    ensures DigitRun(d + rest) == |d|
  {
    if d != [] {
      assert (d + rest)[1..] == d[1..] + rest;
      DigitRunOf(d[1..], rest);
    } else {
      assert d + rest == rest;
    }
  }

  /** The last `width` decimal digits of `n`, zero-padded (a `%0<width>` conversion for `n < 10^width`). */
  function Pad(n: nat, width: nat): (r: string)
    ensures |r| == width && AllDigits(r)
  {
    if width == 0 then "" else Pad(n / 10, width - 1) + [DigitChar(n % 10)]
  }

  function Pow10(k: nat): nat {
    if k == 0 then 1 else 10 * Pow10(k - 1)
  }

  // ---- the order of `str::cmp` ----

  /** `a < b` in the lexicographic order on characters, which for Unicode scalar values is the
      byte-wise order Rust's `Ord for str` uses on their UTF-8 encodings. */
  predicate LexLess(a: string, b: string) {
    |b| > 0 && (|a| == 0 || a[0] < b[0] || (a[0] == b[0] && LexLess(a[1..], b[1..])))
  }

  predicate LexLeq(a: string, b: string) {
    a == b || LexLess(a, b)
  }

  lemma {:induction false} LexLessIrreflexive(a: string)
    ensures !LexLess(a, a)
  {
    if |a| > 0 {
      LexLessIrreflexive(a[1..]);
    }
  }

  lemma {:induction false} LexLessTransitive(a: string, b: string, c: string)
    requires LexLess(a, b) && LexLess(b, c)
    ensures LexLess(a, c)
  {
    if |a| > 0 && a[0] == b[0] && b[0] == c[0] {
      LexLessTransitive(a[1..], b[1..], c[1..]);
    }
  }

  lemma {:induction false} LexLessTotal(a: string, b: string)
    requires a != b
    ensures LexLess(a, b) || LexLess(b, a)
  {
    if |a| > 0 && |b| > 0 && a[0] == b[0] {
      assert a == [a[0]] + a[1..] && b == [b[0]] + b[1..];
      LexLessTotal(a[1..], b[1..]);
    }
  }

  lemma LexLeqTransitive(a: string, b: string, c: string)
    requires LexLeq(a, b) && LexLeq(b, c)
    ensures LexLeq(a, c)
  {
    if a != b && b != c {
      LexLessTransitive(a, b, c);
    }
  }

  /** Two strings of equal length that compare one way keep comparing that way whatever follows. */
  lemma {:induction false} LexLessExtend(a: string, b: string, x: string, y: string)
    requires |a| == |b| && LexLess(a, b)
    ensures LexLess(a + x, b + y)
  {
    assert (a + x)[0] == a[0] && (b + y)[0] == b[0];
    if a[0] == b[0] && LexLess(a[1..], b[1..]) {
      assert (a + x)[1..] == a[1..] + x && (b + y)[1..] == b[1..] + y;
      LexLessExtend(a[1..], b[1..], x, y);
    }
  }

  /** A common prefix does not change the comparison. */
  lemma {:induction false} LexLessCommonPrefix(p: string, x: string, y: string)
    requires LexLess(x, y)
    ensures LexLess(p + x, p + y)
  {
    if p != [] {
      assert (p + x)[1..] == p[1..] + x && (p + y)[1..] == p[1..] + y;
      LexLessCommonPrefix(p[1..], x, y);
    } else {
      assert p + x == x && p + y == y;
    }
  }

  /** Zero-padded numbers of one width compare as the numbers do. */
  lemma {:induction false} PadMonotonic(n: nat, m: nat, width: nat)
    requires n < m < Pow10(width)
    ensures LexLess(Pad(n, width), Pad(m, width))
  {
    var pn, pm := Pad(n / 10, width - 1), Pad(m / 10, width - 1);
    var dn, dm := DigitChar(n % 10), DigitChar(m % 10);
    assert Pad(n, width) == pn + [dn] && Pad(m, width) == pm + [dm];
    if n / 10 < m / 10 {
      PadMonotonic(n / 10, m / 10, width - 1);
      LexLessExtend(pn, pm, [dn], [dm]);
    } else {
      assert n / 10 == m / 10 && n % 10 < m % 10;
      assert LexLess([dn], [dm]);
      LexLessCommonPrefix(pn, [dn], [dm]);
    }
  }
}
