/** The telegram parser of smart_power_2_driver.c: spower2_parse_float reads one
    fixed-point field, parse_spower2_sample reads the four fields of a device line such as
    "7 4.610V *0.439 A 2.019W  0.000Wh" into thousandths of volt, ampere, watt and
    watt-hour. */
module Telegram {
  import opened CLib
  import opened Samples

  /** Lines shorter than this are answered with an all-unavailable reading. */
  const MIN_TELEGRAM_LENGTH: nat := 33
  /** The status characters that open every line and are skipped. */
  const STATUS_LENGTH: nat := 2
  /** The span of the "-.---" placeholder, skipped without looking at it. */
  const DASH_SPAN: nat := 5

  /** The characters the skip loop of spower2_parse_float stops at. */
  predicate IsFieldStart(c: char) {
    IsDigit(c) || c == '-'
  }

  /** The characters the final loop of spower2_parse_float steps over. */
  predicate InNumber(c: char) {
    IsDigit(c) || c == '.'
  }

  /** A digit or a '-' lies at or after position i. The skip loop has no end-of-string
      test, so this is what keeps it inside the line. */
  predicate FieldAhead(s: string, i: nat)
    decreases |s| - i
  {
    i < |s| && (IsFieldStart(s[i]) || FieldAhead(s, i + 1))
  }

  /** The number of characters the skip loop steps over from position i. */
  function SkipLen(s: string, i: nat): (n: nat)
    requires FieldAhead(s, i)
    ensures i + n < |s| && IsFieldStart(s[i + n])
    decreases |s| - i
  {
    if IsFieldStart(s[i]) then 0
    else
      1 + SkipLen(s, i + 1)
  }

  /** The number of digits and dots that start at position j. */
  function NumberRun(s: string, j: nat): (n: nat)
    requires j <= |s|
    ensures j + n <= |s|
    ensures j + n == |s| || !InNumber(s[j + n])
    decreases |s| - j
  {
    if j < |s| && InNumber(s[j]) then 1 + NumberRun(s, j + 1) else 0
  }

  /** The skip loop steps over no digit and no '-'. */
  lemma {:induction false} SkipLenSkips(s: string, i: nat)
    requires FieldAhead(s, i)
    ensures forall k :: i <= k < i + SkipLen(s, i) ==> !IsFieldStart(s[k])
    decreases |s| - i
  {
    if !IsFieldStart(s[i]) {
      SkipLenSkips(s, i + 1);
    }
  }

  /** The number loop steps over digits and dots only. */
  lemma {:induction false} NumberRunSteps(s: string, j: nat)
    requires j <= |s|
    ensures forall k :: j <= k < j + NumberRun(s, j) ==> InNumber(s[k])
    decreases |s| - j
  {
    if j < |s| && InNumber(s[j]) {
      NumberRunSteps(s, j + 1);
    }
  }

  /** The skip loop stops at the first digit or '-' from position i. */
  lemma {:induction false} SkipLenFirst(s: string, i: nat, p: nat)
    requires FieldAhead(s, i)
    requires i <= p < |s| && IsFieldStart(s[p])
    ensures i + SkipLen(s, i) <= p
    decreases p - i
  {
    if !IsFieldStart(s[i]) {
      SkipLenFirst(s, i + 1, p);
    }
  }

  /** The number loop stops at the first character after j that is neither a digit nor a dot. */
  lemma {:induction false} NumberRunFirst(s: string, j: nat, p: nat)
    requires j <= p <= |s|
    requires p == |s| || !InNumber(s[p])
    ensures j + NumberRun(s, j) <= p
    decreases p - j
  {
    if j < |s| && InNumber(s[j]) {
      NumberRunFirst(s, j + 1, p);
    }
  }

  /** The value spower2_parse_float stores after sscanf(str, "%d.%d", &unit, &dec) at
      position j: unit*1000+dec when both conversions succeed, UNAVAILABLE otherwise,
      before it is stored into the `int` *val. */
  function ScanMilli(s: string, j: nat): int
    requires j <= |s|
  {
    match ScanInt(s, j)
    case None => UNAVAILABLE
    case Some(u) =>
      var (unit, e) := u;
      if e < |s| && s[e] == '.' then
        match ScanInt(s, e + 1)
        case None => UNAVAILABLE
        case Some(d) => unit * 1000 + d.0
      else UNAVAILABLE
  }

  /** The value spower2_parse_float computes from position i. */
  function FieldFixed(s: string, i: nat): int
    requires FieldAhead(s, i)
  {
    ScanMilli(s, i + SkipLen(s, i))
  }

  /** The value spower2_parse_float stores from position i: the `int` store wraps the
      value to 32 bits (and keeps UNAVAILABLE). */
  function FieldValue(s: string, i: nat): int
    requires FieldAhead(s, i)
  {
    ToI32(FieldFixed(s, i))
  }

  /** The offset spower2_parse_float returns from position i: the skipped prefix, then
      five characters when the field starts with '-', or the digits and dots otherwise. */
  function FieldLength(s: string, i: nat): (n: nat)
    requires FieldAhead(s, i)
    ensures n > SkipLen(s, i)
  {
    var j := i + SkipLen(s, i);
    if s[j] == '-' then SkipLen(s, i) + DASH_SPAN else SkipLen(s, i) + NumberRun(s, j)
  }

  /** spower2_parse_float(str + i, &val): skip to the first digit or '-', scan "%d.%d",
      then step over the placeholder or over the number. */
  method ParseFloat(s: string, i: nat) returns (val: int, len: nat)
    requires FieldAhead(s, i)
    ensures val == FieldValue(s, i)
    ensures len == FieldLength(s, i)
  {
    ghost var j := i + SkipLen(s, i);
    var p := i;
    len := 0;
    while !IsFieldStart(s[p])
      invariant i <= p <= j
      invariant len == p - i
      decreases j - p
    {
      p := p + 1;
      len := len + 1;
    }
    SkipLenFirst(s, i, p);
    assert p == j;
    assert FieldFixed(s, i) == ScanMilli(s, p);
    val := ToI32(ScanMilli(s, p));
    if s[p] == '-' {
      len := len + DASH_SPAN;
      assert len == FieldLength(s, i);
    } else {
      ghost var n := NumberRun(s, j);
      while p < |s| && InNumber(s[p])
        invariant j <= p <= j + n
        invariant len == p - i
        decreases |s| - p
      {
        p := p + 1;
        len := len + 1;
      }
      NumberRunFirst(s, j, p);
      assert len == FieldLength(s, i);
    }
  }

  /** Where the next field scan starts: spower2_parse_float(str + i, ...) returns the
      offset that parse_spower2_sample adds to its cursor. */
  function Next(s: string, i: nat): (r: nat)
    requires FieldAhead(s, i)
    ensures r > i
  {
    i + FieldLength(s, i)
  }

  /** A line parse_spower2_sample can read without running past its end: a short line, or
      one where each of the four field scans finds a digit or '-' ahead. */
  predicate Scannable(line: string) {
    |line| < MIN_TELEGRAM_LENGTH ||
    (FieldAhead(line, STATUS_LENGTH) &&
     var p1 := Next(line, STATUS_LENGTH);
     FieldAhead(line, p1) &&
     var p2 := Next(line, p1);
     FieldAhead(line, p2) &&
     FieldAhead(line, Next(line, p2)))
  }

  /** The four readings of a line, as parse_spower2_sample stores them. */
  datatype Reading = Reading(volts: int, ampere: int, watt: int, watthour: int)

  function LineReading(line: string): Reading
    requires Scannable(line)
  {
    if |line| < MIN_TELEGRAM_LENGTH then Reading(UNAVAILABLE, UNAVAILABLE, UNAVAILABLE, UNAVAILABLE)
    else
      var p1 := Next(line, STATUS_LENGTH);
      var p2 := Next(line, p1);
      var p3 := Next(line, p2);
      Reading(FieldValue(line, STATUS_LENGTH), FieldValue(line, p1), FieldValue(line, p2),
              FieldValue(line, p3))
  }

  /** parse_spower2_sample(line, &sample): a short line marks the four readings unavailable
      and returns 1; otherwise the status characters are skipped and the four fields are
      read in order, returning 0. The energy and the timestamp of the record are not
      touched in either case. */
  method ParseSample(line: string, prev: Sample) returns (sample: Sample, ret: int)
    requires Scannable(line)
    ensures ret == (if |line| < MIN_TELEGRAM_LENGTH then 1 else 0)
    ensures var r := LineReading(line);
      sample == prev.(volts := r.volts, ampere := r.ampere, watt := r.watt, watthour := r.watthour)
  {
    if |line| < MIN_TELEGRAM_LENGTH {
      sample := prev.(volts := UNAVAILABLE, ampere := UNAVAILABLE, watt := UNAVAILABLE,
                      watthour := UNAVAILABLE);
      return sample, 1;
    }
    sample := prev;
    var p := STATUS_LENGTH;
    var v, n := ParseFloat(line, p);
    sample := sample.(volts := v);
    p := p + n;
    assert p == Next(line, STATUS_LENGTH);
    v, n := ParseFloat(line, p);
    sample := sample.(ampere := v);
    p := p + n;
    assert p == Next(line, Next(line, STATUS_LENGTH));
    v, n := ParseFloat(line, p);
    sample := sample.(watt := v);
    p := p + n;
    v, n := ParseFloat(line, p);
    sample := sample.(watthour := v);
    ret := 0;
  }

  // ---------------------------------------------------------------------------------------
  // The lines the device sends

  /** A field as the device prints it: the "-.---" placeholder, or digits, a dot, digits. */
  datatype Field = Dash | Number(whole: string, frac: string)

  predicate WellFormed(f: Field) {
    f.Number? ==> |f.whole| > 0 && |f.frac| > 0 && AllDigits(f.whole) && AllDigits(f.frac)
  }

  function Text(f: Field): string {
    if f.Dash? then "-.---" else f.whole + "." + f.frac
  }

  /** The fixed-point value a field stands for: whole*1000 + frac, or UNAVAILABLE. */
  function Fixed(f: Field): int
    requires WellFormed(f)
  {
    if f.Dash? then UNAVAILABLE else DigitsValue(f.whole) * 1000 + DigitsValue(f.frac)
  }

  /** That value as the `int` the parser stores. */
  function Milli(f: Field): int
    requires WellFormed(f)
  {
    ToI32(Fixed(f))
  }

  /** What may stand between fields: units, blanks and the '*' alert marker, but no digit,
      '-' or '.'. */
  predicate Filler(t: string) {
    forall k :: 0 <= k < |t| ==> !IsFieldStart(t[k]) && t[k] != '.'
  }

  /** The skip loop steps over exactly the m characters before the first digit or '-'. */
  lemma {:induction false} SkipLenIs(s: string, i: nat, m: nat)
    requires i + m < |s| && IsFieldStart(s[i + m])
    requires forall k :: i <= k < i + m ==> !IsFieldStart(s[k])
    ensures FieldAhead(s, i) && SkipLen(s, i) == m
    decreases m
  {
    assert IsFieldStart(s[i + m]);
    if m > 0 {
      SkipLenIs(s, i + 1, m - 1);
    }
  }

  lemma {:induction false} NumberRunIs(s: string, j: nat, m: nat)
    requires j + m <= |s|
    requires forall k :: j <= k < j + m ==> InNumber(s[k])
    requires j + m == |s| || !InNumber(s[j + m])
    ensures NumberRun(s, j) == m
    decreases m
  {
    if m > 0 {
      NumberRunIs(s, j + 1, m - 1);
    }
  }

  /** The placeholder at position j reads as UNAVAILABLE: '-' is not followed by a digit. */
  lemma DashAt(s: string, j: nat)
    requires j + 1 < |s| && s[j] == '-' && s[j + 1] == '.'
    ensures ScanMilli(s, j) == UNAVAILABLE
  {
    assert SkipSpaces(s, j) == j;
    assert DigitRun(s, j + 1) == 0;
  }

  /** Two successful `%d` conversions around a dot make up the value unit*1000 + dec. */
  lemma ScanMilliOf(s: string, j: nat, unit: int, e: nat, dec: int, e2: nat)
    requires j <= |s|
    requires ScanInt(s, j) == Some((unit, e)) && e < |s| && s[e] == '.'
    requires ScanInt(s, e + 1) == Some((dec, e2))
    ensures ScanMilli(s, j) == unit * 1000 + dec
  {
  }

  /** Digits from j up to a dot at e, then digits up to e2 that no digit or dot follows, read
      as whole*1000 + fraction. */
  lemma {:induction false} NumberValueAt(s: string, j: nat, e: nat, e2: nat)
    requires j < e && e + 1 < e2 <= |s| && s[e] == '.'
    requires AllDigits(s[j..e]) && AllDigits(s[e + 1..e2])
    requires e2 == |s| || !InNumber(s[e2])
    ensures ScanMilli(s, j) == DigitsValue(s[j..e]) * 1000 + DigitsValue(s[e + 1..e2])
  {
    ScanDigits(s, j, s[j..e]);
    ScanDigits(s, e + 1, s[e + 1..e2]);
    ScanMilliOf(s, j, DigitsValue(s[j..e]), e, DigitsValue(s[e + 1..e2]), e2);
  }

  /** The final loop of spower2_parse_float steps over exactly such a number. */
  lemma NumberSpanAt(s: string, j: nat, e: nat, e2: nat)
    requires j < e && e + 1 < e2 <= |s| && s[e] == '.'
    requires AllDigits(s[j..e]) && AllDigits(s[e + 1..e2])
    requires e2 == |s| || !InNumber(s[e2])
    ensures NumberRun(s, j) == e2 - j
  {
    forall k | j <= k < e2 ensures InNumber(s[k]) {
      if k < e {
        assert s[k] == s[j..e][k - j];
      } else if k > e {
        assert s[k] == s[e + 1..e2][k - e - 1];
      }
    }
    NumberRunIs(s, j, e2 - j);
  }

  /** Reading the pieces of s[i..] == a + b + c back by position. */
  lemma {:induction false} Pieces(s: string, i: nat, a: string, b: string, c: string)
    requires i <= |s| && s[i..] == a + b + c
    ensures s[i..i + |a|] == a
    ensures s[i + |a|..i + |a| + |b|] == b
    ensures s[i + |a| + |b|..] == c
  {
    assert s[i..i + |a|] == s[i..][..|a|];
    assert s[i + |a|..i + |a| + |b|] == s[i..][|a|..|a| + |b|];
    assert s[i + |a| + |b|..] == s[i..][|a| + |b|..];
  }

  /** The skip loop steps over a filler that a digit or '-' follows. */
  lemma SkipFiller(s: string, i: nat, sep: string)
    requires Filler(sep) && i + |sep| < |s| && IsFieldStart(s[i + |sep|])
    requires s[i..i + |sep|] == sep
    ensures FieldAhead(s, i) && SkipLen(s, i) == |sep|
  {
    forall k | i <= k < i + |sep| ensures !IsFieldStart(s[k]) {
      assert s[k] == s[i..i + |sep|][k - i];
    }
    SkipLenIs(s, i, |sep|);
  }

  /** The text of a number, read back by position. */
  lemma NumberPieces(s: string, j: nat, e: nat, w: string, fr: string)
    requires j <= e <= |s| && s[j..e] == w + "." + fr
    ensures j + |w| < e && s[j + |w|] == '.'
    ensures s[j..j + |w|] == w && s[j + |w| + 1..e] == fr
  {
    assert s[j + |w|] == s[j..e][|w|];
    assert s[j..j + |w|] == s[j..e][..|w|];
    assert s[j + |w| + 1..e] == s[j..e][|w| + 1..];
  }

  /** A placeholder behind the skipped prefix: the field scans as UNAVAILABLE and spans
      the prefix and five characters. */
  lemma DashField(s: string, i: nat, j: nat)
    requires FieldAhead(s, i) && j == i + SkipLen(s, i)
    requires j + 1 < |s| && s[j] == '-' && s[j + 1] == '.'
    ensures FieldFixed(s, i) == UNAVAILABLE
    ensures FieldLength(s, i) == j - i + DASH_SPAN
  {
    DashAt(s, j);
  }

  /** A number behind the skipped prefix: the field scans as whole*1000 + fraction and
      spans the prefix and the number. */
  lemma NumberField(s: string, i: nat, j: nat, e: nat, e2: nat)
    requires FieldAhead(s, i) && j == i + SkipLen(s, i)
    requires j < e && e + 1 < e2 <= |s| && s[e] == '.'
    requires AllDigits(s[j..e]) && AllDigits(s[e + 1..e2])
    requires e2 == |s| || !InNumber(s[e2])
    ensures FieldFixed(s, i) == DigitsValue(s[j..e]) * 1000 + DigitsValue(s[e + 1..e2])
    ensures FieldLength(s, i) == e2 - i
  {
    assert s[j] != '-' by {
      assert s[j] == s[j..e][0];
    }
    NumberValueAt(s, j, e, e2);
    NumberSpanAt(s, j, e, e2);
  }

  /** One field behind a filler, ending at e: spower2_parse_float skips the filler, reads
      the field's value and returns the length of filler and field. */
  lemma FieldAt(s: string, i: nat, sep: string, f: Field, e: nat)
    requires WellFormed(f) && Filler(sep)
    requires e == i + |sep| + |Text(f)| <= |s|
    requires s[i..i + |sep|] == sep && s[i + |sep|..e] == Text(f)
    requires f.Number? ==> e == |s| || !InNumber(s[e])
    ensures FieldAhead(s, i) && SkipLen(s, i) == |sep|
    ensures FieldFixed(s, i) == Fixed(f)
    ensures Next(s, i) == e
  {
    var j := i + |sep|;
    assert s[j] == Text(f)[0] by {
      assert s[j..e][0] == Text(f)[0];
    }
    SkipFiller(s, i, sep);
    if f.Dash? {
      assert s[j + 1] == s[j..e][1];
      DashField(s, i, j);
    } else {
      NumberPieces(s, j, e, f.whole, f.frac);
      NumberField(s, i, j, j + |f.whole|, e);
    }
  }

  /** A line body: each part is a filler followed by a field; the tail follows the last. */
  function Layout(parts: seq<(string, Field)>, tail: string): string {
    if parts == [] then tail else parts[0].0 + Text(parts[0].1) + Layout(parts[1..], tail)
  }

  predicate WellLaidOut(parts: seq<(string, Field)>, tail: string) {
    && (forall k :: 0 <= k < |parts| ==> WellFormed(parts[k].1) && Filler(parts[k].0))
    && (forall k :: 1 <= k < |parts| ==> |parts[k].0| > 0)
    && (tail == [] || !InNumber(tail[0]))
  }

  /** One step of parse_spower2_sample over a laid-out body: the first field is read and
      the cursor lands on the filler of the next one. */
  lemma LayoutStep(s: string, i: nat, parts: seq<(string, Field)>, tail: string)
    requires WellLaidOut(parts, tail) && |parts| > 0
    requires i <= |s| && s[i..] == Layout(parts, tail)
    ensures FieldAhead(s, i)
    ensures FieldValue(s, i) == Milli(parts[0].1)
    ensures Next(s, i) <= |s| && s[Next(s, i)..] == Layout(parts[1..], tail)
    ensures WellLaidOut(parts[1..], tail)
  {
    var (sep, f) := parts[0];
    var rest := Layout(parts[1..], tail);
    var e := i + |sep| + |Text(f)|;
    Pieces(s, i, sep, Text(f), rest);
    assert WellLaidOut(parts[1..], tail) by {
      assert forall k :: 0 <= k < |parts[1..]| ==> parts[1..][k] == parts[k + 1];
    }
    assert rest == [] || !InNumber(rest[0]) by {
      if |parts| > 1 {
        assert parts[1..][0] == parts[1];
        assert rest[0] == parts[1].0[0];
        assert Filler(parts[1].0);
      }
    }
    assert e == |s| || s[e] == rest[0] by {
      if e < |s| {
        assert s[e] == s[e..][0];
      }
    }
    FieldAt(s, i, sep, f, e);
  }

  /** A line of at least 33 characters made of two status characters and four fields
      behind fillers is read field by field, in order. */
  lemma TelegramReading(line: string, parts: seq<(string, Field)>, tail: string)
    requires |line| >= MIN_TELEGRAM_LENGTH && |parts| == 4
    requires WellLaidOut(parts, tail)
    requires line[STATUS_LENGTH..] == Layout(parts, tail)
    ensures Scannable(line)
    ensures LineReading(line) ==
      Reading(Milli(parts[0].1), Milli(parts[1].1), Milli(parts[2].1), Milli(parts[3].1))
  {
    LayoutStep(line, STATUS_LENGTH, parts, tail);
    var p1 := Next(line, STATUS_LENGTH);
    LayoutStep(line, p1, parts[1..], tail);
    var p2 := Next(line, p1);
    assert parts[1..][1..] == parts[2..];
    LayoutStep(line, p2, parts[2..], tail);
    var p3 := Next(line, p2);
    assert parts[2..][1..] == parts[3..];
    LayoutStep(line, p3, parts[3..], tail);
  }

  /** The values of the digit strings in the sample lines. */
  lemma SampleMillis()
    ensures Milli(Number("4", "610")) == 4610 && Milli(Number("0", "439")) == 439
    ensures Milli(Number("2", "019")) == 2019 && Milli(Number("0", "000")) == 0
  {
    assert DigitsIn("610", 0, 1) == 6 && DigitsIn("610", 0, 2) == 61;
    assert DigitsIn("439", 0, 1) == 4 && DigitsIn("439", 0, 2) == 43;
    assert DigitsIn("019", 0, 1) == 0 && DigitsIn("019", 0, 2) == 1;
    assert DigitsIn("000", 0, 1) == 0 && DigitsIn("000", 0, 2) == 0;
  }

  /** Four well-formed fields, the first right after the status, the others behind
      non-empty fillers, and the "Wh" tail make a well laid-out body. */
  lemma FourLaidOut(f0: Field, s1: string, f1: Field, s2: string, f2: Field, s3: string, f3: Field)
    requires Filler(s1) && Filler(s2) && Filler(s3)
    requires |s1| > 0 && |s2| > 0 && |s3| > 0
    requires WellFormed(f0) && WellFormed(f1) && WellFormed(f2) && WellFormed(f3)
    ensures WellLaidOut([("", f0), (s1, f1), (s2, f2), (s3, f3)], "Wh")
    ensures Layout([("", f0), (s1, f1), (s2, f2), (s3, f3)], "Wh") ==
      Text(f0) + (s1 + Text(f1) + (s2 + Text(f2) + (s3 + Text(f3) + "Wh")))
  {
    var parts := [("", f0), (s1, f1), (s2, f2), (s3, f3)];
    assert Filler("");
    assert parts[3..][1..] == [];
    assert parts[2..][1..] == parts[3..];
    assert parts[1..][1..] == parts[2..];
    assert Layout(parts[3..], "Wh") == s3 + Text(f3) + "Wh";
    assert Layout(parts[2..], "Wh") == s2 + Text(f2) + (s3 + Text(f3) + "Wh");
    assert Layout(parts[1..], "Wh") == s1 + Text(f1) + (s2 + Text(f2) + (s3 + Text(f3) + "Wh"));
    assert "" + Text(f0) == Text(f0);
  }

  /** A line of the shape the device sends: the status "7 ", four fields with fillers
      between them, and "Wh". */
  lemma SampleLine(line: string, f0: Field, s1: string, f1: Field,
                   s2: string, f2: Field, s3: string, f3: Field)
    requires Filler(s1) && Filler(s2) && Filler(s3)
    requires |s1| > 0 && |s2| > 0 && |s3| > 0
    requires WellFormed(f0) && WellFormed(f1) && WellFormed(f2) && WellFormed(f3)
    requires line == "7 " + (Text(f0) + (s1 + Text(f1) + (s2 + Text(f2) + (s3 + Text(f3) + "Wh"))))
    requires |line| >= MIN_TELEGRAM_LENGTH
    ensures Scannable(line)
    ensures LineReading(line) == Reading(Milli(f0), Milli(f1), Milli(f2), Milli(f3))
  {
    var parts := [("", f0), (s1, f1), (s2, f2), (s3, f3)];
    FourLaidOut(f0, s1, f1, s2, f2, s3, f3);
    assert line[STATUS_LENGTH..] == Layout(parts, "Wh");
    TelegramReading(line, parts, "Wh");
  }

  /** The fillers and fields of the sample lines, and what the fields stand for. */
  lemma SamplePieces()
    ensures Filler("V  ") && Filler("V *") && Filler(" A ") && Filler("W  ")
    ensures WellFormed(Number("4", "610")) && WellFormed(Number("0", "439"))
    ensures WellFormed(Number("2", "019")) && WellFormed(Number("0", "000"))
    ensures Text(Number("4", "610")) == "4.610" && Text(Number("0", "439")) == "0.439"
    ensures Text(Number("2", "019")) == "2.019" && Text(Number("0", "000")) == "0.000"
  {
  }

  /** The three lines quoted in smart_power_2_driver.c: a normal reading, one with the '*'
      alert marker before the current, and one where the device prints placeholders. */
  const NORMAL_LINE: string :=
    "7 " + ("4.610" + ("V  " + "0.439" + (" A " + "2.019" + ("W  " + "0.000" + "Wh"))))
  const ALERT_LINE: string :=
    "7 " + ("4.610" + ("V *" + "0.439" + (" A " + "2.019" + ("W  " + "0.000" + "Wh"))))
  const PLACEHOLDER_LINE: string :=
    "7 " + ("4.610" + ("V  " + "-.---" + (" A " + "-.---" + ("W  " + "-.---" + "Wh"))))

  lemma NormalLine()
    ensures Scannable(NORMAL_LINE)
    ensures LineReading(NORMAL_LINE) == Reading(4610, 439, 2019, 0)
  {
    SamplePieces();
    SampleMillis();
    SampleLine(NORMAL_LINE, Number("4", "610"), "V  ", Number("0", "439"),
               " A ", Number("2", "019"), "W  ", Number("0", "000"));
  }

  /** The '*' alert marker before the current moves no field. */
  lemma AlertLine()
    ensures Scannable(ALERT_LINE)
    ensures LineReading(ALERT_LINE) == Reading(4610, 439, 2019, 0)
  {
    SamplePieces();
    SampleMillis();
    SampleLine(ALERT_LINE, Number("4", "610"), "V *", Number("0", "439"),
               " A ", Number("2", "019"), "W  ", Number("0", "000"));
  }

  /** Each "-.---" placeholder reads as UNAVAILABLE. */
  lemma PlaceholderLine()
    ensures Scannable(PLACEHOLDER_LINE)
    ensures LineReading(PLACEHOLDER_LINE) == Reading(4610, UNAVAILABLE, UNAVAILABLE, UNAVAILABLE)
  {
    SamplePieces();
    SampleMillis();
    SampleLine(PLACEHOLDER_LINE, Number("4", "610"), "V  ", Dash, " A ", Dash, "W  ", Dash);
  }
}
