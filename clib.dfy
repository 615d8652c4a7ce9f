/** The pieces of C and of the Linux kernel library that the Smart Power 2 driver leans on:
    errno values, the integer conversions C performs implicitly, the kernel's character
    classes, and the `%d`/`%u` conversions of its sscanf and sprintf. */
module CLib {

  datatype Option<+T> = None | Some(value: T)

  // errno values of Linux (include/uapi/asm-generic/errno-base.h and errno.h)
  const ENOENT: int := 2
  const ENODEV: int := 19
  const EINVAL: int := 22
  const ENOSPC: int := 28
  const ECONNRESET: int := 104
  const ESHUTDOWN: int := 108

  const TWO31: int := 0x8000_0000
  const TWO32: int := 0x1_0000_0000
  const TWO64: int := 0x1_0000_0000_0000_0000

  /** A C `unsigned int`. */
  type u32 = x: int | 0 <= x < TWO32

  /** A C `unsigned long` (and `uint64_t`) of the 64-bit target. */
  type u64 = x: int | 0 <= x < TWO64

  // ---------------------------------------------------------------------------------------
  // Integer conversions of C (two's complement, as GCC implements them)

  /** Conversion of any integer value to `unsigned long` (64 bits on the target). */
  function ToU64(x: int): (r: u64)
    ensures 0 <= x < TWO64 ==> r == x
    ensures -TWO64 <= x < 0 ==> r == x + TWO64
  {
    x % TWO64
  }

  /** Conversion of any integer value to `unsigned int`. */
  function ToU32(x: int): (r: u32)
    ensures 0 <= x < TWO32 ==> r == x
    ensures -TWO32 <= x < 0 ==> r == x + TWO32
  {
    x % TWO32
  }

  /** Conversion of an integer value to a 32-bit `int`: the value modulo 2^32, read as
      two's complement (what GCC does when a wider value is stored into an `int`). */
  function ToI32(x: int): (r: int)
    ensures -TWO31 <= r < TWO31
    ensures ToU32(r) == ToU32(x)
    ensures -TWO31 <= x < TWO31 ==> r == x
  {
    var m := x % TWO32;
    if m >= TWO31 then m - TWO32 else m
  }

  /** Adding to a value already converted to `int` wraps the same as adding to the
      value itself: an `int` accumulator keeps the sum modulo 2^32. */
  lemma ToI32Add(a: int, b: int)
    ensures ToI32(ToI32(a) + b) == ToI32(a + b)
  {
    var r := ToI32(a);
    var k := (a - r) / TWO32;
    assert a - r == k * TWO32;
    assert (r + b) % TWO32 == (a + b) % TWO32 by {
      assert r + b == (a + b) - k * TWO32;
    }
  }

  /** C99 division of `int`s: the quotient is truncated toward zero, so the remainder
      has the sign of the dividend (Dafny's own `/` is Euclidean). */
  function CDiv(a: int, n: int): (q: int)
    requires n > 0
    ensures a >= 0 ==> q >= 0 && q * n <= a < q * n + n
    ensures a < 0 ==> q <= 0 && q * n - n < a <= q * n
  {
    if a >= 0 then a / n else -((-a) / n)
  }

  /** Truncated division keeps a dividend that lies between n*lo and n*hi between lo and hi. */
  lemma CDivBounds(a: int, n: int, lo: int, hi: int)
    requires n > 0
    requires n * lo <= a <= n * hi
    ensures lo <= CDiv(a, n) <= hi
  {
    var q := CDiv(a, n);
    if a >= 0 {
      assert a < (q + 1) * n;
      MulCancel(lo, q + 1, n);
      MulCancel(q, hi, n);
    } else {
      assert (q - 1) * n < a;
      MulCancel(lo, q, n);
      MulCancel(q - 1, hi, n);
    }
  }

  /** Multiplying by a positive n keeps and reflects the order. */
  lemma MulCancel(x: int, y: int, n: int)
    requires n > 0
    ensures x * n <= y * n <==> x <= y
    ensures x * n < y * n <==> x < y
  {
    assert y * n - x * n == (y - x) * n;
  }

  // ---------------------------------------------------------------------------------------
  // Strings of C

  /** The C string held in a byte buffer: everything before the first NUL. */
  function CStr(buf: string): (r: string)
    ensures r <= buf && '\0' !in r
    ensures |r| < |buf| ==> buf[|r|] == '\0'
  {
    if buf == [] || buf[0] == '\0' then [] else [buf[0]] + CStr(buf[1..])
  }

  /** isdigit of the kernel's ctype table. */
  predicate IsDigit(c: char) {
    '0' <= c <= '9'
  }

  /** isspace of the kernel's ctype table: blank, the controls 9-13 and the Latin-1 NBSP. */
  predicate IsSpace(c: char) {
    c == ' ' || 9 <= c as int <= 13 || c as int == 0xA0
  }

  predicate AllDigits(d: string) {
    forall k :: 0 <= k < |d| ==> IsDigit(d[k])
  }

  /** The number of decimal digits that start at position j. */
  function DigitRun(s: string, j: nat): (n: nat)
    requires j <= |s|
    ensures j + n <= |s|
    ensures j + n == |s| || !IsDigit(s[j + n])
    decreases |s| - j
  {
    if j < |s| && IsDigit(s[j]) then 1 + DigitRun(s, j + 1) else 0
  }

  /** The position of the first non-whitespace character at or after j. */
  function SkipSpaces(s: string, j: nat): (k: nat)
    requires j <= |s|
    ensures j <= k <= |s|
    ensures k == |s| || !IsSpace(s[k])
    decreases |s| - j
  {
    if j < |s| && IsSpace(s[j]) then SkipSpaces(s, j + 1) else j
  }

  /** The run DigitRun measures holds only digits. Stated apart from DigitRun so that the
      quantifier is present only where a proof asks for it. */
  lemma {:induction false} DigitRunDigits(s: string, j: nat)
    requires j <= |s|
    ensures AllDigits(s[j..j + DigitRun(s, j)])
    decreases |s| - j
  {
    if j < |s| && IsDigit(s[j]) {
      DigitRunDigits(s, j + 1);
      assert s[j..j + DigitRun(s, j)] == [s[j]] + s[j + 1..j + 1 + DigitRun(s, j + 1)];
    }
  }

  /** The positions SkipSpaces steps over hold whitespace. */
  lemma {:induction false} SkipSpacesSpaces(s: string, j: nat)
    requires j <= |s|
    ensures forall i :: j <= i < SkipSpaces(s, j) ==> IsSpace(s[i])
    decreases |s| - j
  {
    if j < |s| && IsSpace(s[j]) {
      SkipSpacesSpaces(s, j + 1);
    }
  }

  /** The value of a decimal digit character (what c - '0' computes). */
  function DigitValue(c: char): int {
    c as int - '0' as int
  }

  function DigitChar(d: nat): (c: char)
    requires d < 10
    ensures IsDigit(c) && DigitValue(c) == d
  {
    ('0' as int + d) as char
  }

  /** The number the characters s[d..e] denote as decimal digits, each read as c - '0'. */
  function DigitsIn(s: string, d: nat, e: nat): int
    requires d <= e <= |s|
    decreases e - d
  {
    if e == d then 0 else 10 * DigitsIn(s, d, e - 1) + DigitValue(s[e - 1])
  }

  /** The number a string of decimal digits denotes. */
  function DigitsValue(w: string): int {
    DigitsIn(w, 0, |w|)
  }

  /** DigitsIn depends on the characters of the range only. */
  lemma {:induction false} DigitsInSame(s: string, d: nat, e: nat, t: string, c: nat)
    requires d <= e <= |s| && c + (e - d) <= |t|
    requires s[d..e] == t[c..c + (e - d)]
    ensures DigitsIn(s, d, e) == DigitsIn(t, c, c + (e - d))
    decreases e - d
  {
    if e > d {
      assert s[d..e - 1] == s[d..e][..e - 1 - d];
      assert t[c..c + (e - 1 - d)] == t[c..c + (e - d)][..e - 1 - d];
      assert s[e - 1] == s[d..e][e - 1 - d];
      assert t[c + (e - d) - 1] == t[c..c + (e - d)][e - 1 - d];
      DigitsInSame(s, d, e - 1, t, c);
    }
  }

  /** What sprintf's `%u` (and `%llu`) prints for n. */
  function NatToString(n: nat): (s: string)
    ensures |s| > 0 && AllDigits(s)
    ensures DigitsValue(s) == n
    decreases n
  {
    if n < 10 then
      var s := [DigitChar(n)];
      assert DigitsIn(s, 0, 1) == 10 * DigitsIn(s, 0, 0) + DigitValue(s[0]);
      s
    else
      var p := NatToString(n / 10);
      var s := p + [DigitChar(n % 10)];
      assert s[0..|p|] == p[0..|p|];
      DigitsInSame(s, 0, |p|, p, 0);
      s
  }

  /** What sprintf's `%d` prints for v. */
  function IntToString(v: int): (s: string)
    ensures |s| > 0
    ensures v < 0 <==> s[0] == '-'
    ensures v >= 0 ==> AllDigits(s)
  {
    if v < 0 then "-" + NatToString(-v) else NatToString(v)
  }

  /** The `%d` conversion of the kernel's vsscanf, started at position j: whitespace is
      skipped, an optional '-' must be followed by a digit, and the longest run of digits
      is read. The result is the value and the position just after it; None means the
      conversion failed. */
  function ScanInt(s: string, j: nat): (r: Option<(int, nat)>)
    requires j <= |s|
    ensures r.Some? ==> j < r.value.1 <= |s|
    ensures r.Some? ==> r.value.1 == |s| || !IsDigit(s[r.value.1])
  {
    ScanNumber(s, SkipSpaces(s, j))
  }

  /** The part of `%d` after the whitespace: an optional '-' and at least one digit. */
  function ScanNumber(s: string, k: nat): (r: Option<(int, nat)>)
    requires k <= |s|
    ensures r.Some? ==> k < r.value.1 <= |s|
    ensures r.Some? ==> r.value.1 == |s| || !IsDigit(s[r.value.1])
  {
    var neg := k < |s| && s[k] == '-';
    var d := if neg then k + 1 else k;
    var n := DigitRun(s, d);
    if n == 0 then None
    else
      var v := DigitsIn(s, d, d + n);
      Some((if neg then -v else v, d + n))
  }

  /** sscanf(s, "<word> %d", &v) == 1 for a word free of blanks and '%': the word must
      match exactly, the blank of the format matches any run of whitespace (also none),
      and `%d` follows. Some(v) exactly when sscanf would convert one value. */
  function ScanWordInt(s: string, word: string): Option<int>
  {
    if |word| <= |s| && s[..|word|] == word then
      match ScanInt(s, |word|)
      case Some(r) => Some(r.0)
      case None => None
    else None
  }

  // ---------------------------------------------------------------------------------------
  // sprintf and sscanf agree

  /** The digit run that a position holds, when the run is known to be exactly m long. */
  lemma {:induction false} DigitRunIs(s: string, j: nat, m: nat)
    requires j + m <= |s|
    requires forall k :: j <= k < j + m ==> IsDigit(s[k])
    requires j + m == |s| || !IsDigit(s[j + m])
    ensures DigitRun(s, j) == m
    decreases m
  {
    if m > 0 {
      DigitRunIs(s, j + 1, m - 1);
    }
  }

  /** `%d` reads a run of digits w that nothing else numeric follows as the number w denotes. */
  lemma {:induction false} ScanDigits(s: string, j: nat, w: string)
    requires |w| > 0 && AllDigits(w)
    requires j + |w| <= |s| && s[j..j + |w|] == w
    requires j + |w| == |s| || !IsDigit(s[j + |w|])
    ensures ScanInt(s, j) == Some((DigitsValue(w), j + |w|))
  {
    assert s[j] == s[j..j + |w|][0];
    assert SkipSpaces(s, j) == j;
    forall k | j <= k < j + |w| ensures IsDigit(s[k]) {
      assert s[k] == s[j..j + |w|][k - j];
    }
    DigitRunIs(s, j, |w|);
    DigitsInSame(s, j, j + |w|, w, 0);
  }

  /** `%d` reads a '-' followed by a run of digits w as the negated number w denotes. */
  lemma {:induction false} ScanNegative(s: string, j: nat, w: string)
    requires |w| > 0 && AllDigits(w)
    requires j + 1 + |w| <= |s| && s[j] == '-' && s[j + 1..j + 1 + |w|] == w
    requires j + 1 + |w| == |s| || !IsDigit(s[j + 1 + |w|])
    ensures ScanInt(s, j) == Some((-(DigitsValue(w)), j + 1 + |w|))
  {
    assert SkipSpaces(s, j) == j;
    forall k | j + 1 <= k < j + 1 + |w| ensures IsDigit(s[k]) {
      assert s[k] == s[j + 1..j + 1 + |w|][k - j - 1];
    }
    DigitRunIs(s, j + 1, |w|);
    DigitsInSame(s, j + 1, j + 1 + |w|, w, 0);
  }

  /** `%d` reads back what `%d` printed, as long as no digit follows the number. */
  lemma {:induction false} ScanIntToString(v: int, s: string, j: nat)
    requires j + |IntToString(v)| <= |s|
    requires s[j..j + |IntToString(v)|] == IntToString(v)
    requires j + |IntToString(v)| == |s| || !IsDigit(s[j + |IntToString(v)|])
    ensures ScanInt(s, j) == Some((v, j + |IntToString(v)|))
  {
    var t := IntToString(v);
    var e := j + |t|;
    if v >= 0 {
      ScanDigits(s, j, t);
    } else {
      var digits := NatToString(-v);
      assert t == "-" + digits;
      assert s[j] == '-' by {
        assert s[j] == s[j..e][0];
      }
      assert s[j + 1..e] == digits by {
        assert s[j + 1..e] == s[j..e][1..];
      }
      ScanNegative(s, j, digits);
    }
  }

  /** `%u` reads back what `%u` printed. */
  lemma ScanIntNatToString(n: nat, s: string, j: nat)
    requires j + |NatToString(n)| <= |s|
    requires s[j..j + |NatToString(n)|] == NatToString(n)
    requires j + |NatToString(n)| == |s| || !IsDigit(s[j + |NatToString(n)|])
    ensures ScanInt(s, j) == Some((n, j + |NatToString(n)|))
  {
    assert IntToString(n) == NatToString(n);
    ScanIntToString(n, s, j);
  }

  /** A "<word> %d" scan reads back the number printed after the word. */
  lemma {:induction false} ScanWordIntToString(word: string, sep: string, v: int, rest: string)
    requires forall k :: 0 <= k < |sep| ==> IsSpace(sep[k])
    requires rest == [] || !IsDigit(rest[0])
    ensures ScanWordInt(word + sep + IntToString(v) + rest, word) == Some(v)
  {
    var t := IntToString(v);
    var s := word + sep + t + rest;
    var j := |word| + |sep|;
    assert s[..|word|] == word;
    assert s[j..j + |t|] == t;
    assert j + |t| == |s| || !IsDigit(s[j + |t|]) by {
      if j + |t| < |s| {
        assert s[j + |t|] == rest[0];
      }
    }
    ScanIntToString(v, s, j);
    assert SkipSpaces(s, j) == j by {
      assert s[j] == t[0];
    }
    forall k | |word| <= k < j ensures IsSpace(s[k]) {
      assert s[k] == sep[k - |word|];
    }
    SkipSpacesOver(s, |word|, |sep|);
    ScanIntSkips(s, |word|, j);
  }

  /** `%d` starts reading after the whitespace, wherever in the whitespace it is started. */
  lemma ScanIntSkips(s: string, j0: nat, j1: nat)
    requires j0 <= |s| && j1 <= |s| && SkipSpaces(s, j0) == SkipSpaces(s, j1)
    ensures ScanInt(s, j0) == ScanInt(s, j1)
  {
  }

  /** Skipping whitespace over a run of m blanks lands where skipping after it would. */
  lemma {:induction false} SkipSpacesOver(s: string, j: nat, m: nat)
    requires j + m <= |s|
    requires forall k :: j <= k < j + m ==> IsSpace(s[k])
    ensures SkipSpaces(s, j) == SkipSpaces(s, j + m)
    decreases m
  {
    if m > 0 {
      SkipSpacesOver(s, j + 1, m - 1);
    }
  }
}
