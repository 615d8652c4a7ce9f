/** The text surface of the character device in smart_power_2_driver.c: the commands
    spower2_write accepts, the number format of spower2_print_int and the report
    spower2_read produces. */
module Commands {
  import opened CLib
  import opened Samples

  /** The longest command spower2_write accepts, in bytes (MAX_STRING_COMMAND). */
  const MAX_STRING_COMMAND: nat := 40

  /** The request bytes the device understands. */
  const REQUEST_DATA: int := 0x37
  const REQUEST_STARTSTOP: int := 0x80
  const REQUEST_ONOFF: int := 0x82

  /** What spower2_write makes of the bytes written to the device file. */
  datatype Command =
    | TooLong                  // more than MAX_STRING_COMMAND bytes
    | PowerSwitch              // "on\n" or "off\n"
    | StartStop                // "start\n" or "stop\n"
    | DevicePeriod(ms: int)    // "sampling_period %d"
    | TimerPeriod(ms: int)     // "timer_period %d"
    | Unknown

  /** The strcmp/sscanf chain of spower2_write over the user's bytes, which are
      NUL-terminated after `len` bytes, so a NUL inside them ends the command early. A
      write longer than 40 bytes is refused for its length, and only such a write. */
  function Classify(user: string): (c: Command)
    ensures c == TooLong <==> |user| > MAX_STRING_COMMAND
  {
    if |user| > MAX_STRING_COMMAND then TooLong
    else
      var cmd := CStr(user);
      if cmd == "on\n" || cmd == "off\n" then PowerSwitch
      else if cmd == "start\n" || cmd == "stop\n" then StartStop
      else match ScanWordInt(cmd, "sampling_period")
        case Some(ms) => DevicePeriod(ms)
        case None =>
          match ScanWordInt(cmd, "timer_period")
          case Some(ms) => TimerPeriod(ms)
          case None => Unknown
  }

  /** The request byte spower2_write sends for a command, if any. */
  function RequestOf(c: Command): (r: Option<int>)
    ensures r.Some? <==> c.PowerSwitch? || c.StartStop?
  {
    match c
    case PowerSwitch => Some(REQUEST_ONOFF)
    case StartStop => Some(REQUEST_STARTSTOP)
    case _ => None
  }

  /** spower2_print_int: a reading of -1 prints as "--", any other as `%d`; the tag follows.
      The text starts with "--" exactly for -1, and always ends with the tag. */
  function PrintInt(val: int, tag: string): (r: string)
    ensures |r| > |tag| && r[|r| - |tag|..] == tag
    ensures (|r| >= 2 && r[..2] == "--") <==> val == UNAVAILABLE
  {
    if val == UNAVAILABLE then "--" + tag
    else
      var t := IntToString(val);
      assert t[0] == '-' ==> |t| > 1 && IsDigit(t[1]) by {
        if val < 0 {
          assert t == "-" + NatToString(-val);
        }
      }
      t + tag
  }

  /** The report of one read() from the device file (the build without CONSUMER): the number
      of samples in the window, then either the five fields of their summary and the
      cumulative energy, or "Nothing to read". */
  function ReadText(n: int, s: Sample, energy: nat): (r: string)
    ensures |r| > 8 && r[..8] == "samples=" && r[|r| - 1] == '\n'
  {
    "samples=" + IntToString(n) + ", " +
    (if n != 0 then ReadingsText(s) + EnergyText(energy) else "Nothing to read\n")
  }

  /** The five fields of a summary, each with its unit. */
  function ReadingsText(s: Sample): string {
    PrintInt(s.volts, "mV, ") + PrintInt(s.ampere, "mA, ") + PrintInt(s.watt, "mW, ") +
    PrintInt(s.watthour, "mWh, ") + PrintInt(s.ujoules, "uJ, ")
  }

  /** The cumulative energy, printed with `%llu`. */
  function EnergyText(energy: nat): string {
    NatToString(energy) + "uJ\n"
  }

  // ---------------------------------------------------------------------------------------
  // What the classifier accepts

  lemma {:induction false} CStrNoNul(s: string)
    requires '\0' !in s
    ensures CStr(s) == s
  {
    if s != [] {
      assert s == [s[0]] + s[1..];
      CStrNoNul(s[1..]);
    }
  }

  /** Bytes after a NUL play no part in the command. */
  lemma {:induction false} CStrStopsAtNul(s: string, junk: string)
    requires '\0' !in s
    ensures CStr(s + "\0" + junk) == s
  {
    if s == [] {
      assert (s + "\0" + junk)[0] == '\0';
    } else {
      assert (s + "\0" + junk)[1..] == s[1..] + "\0" + junk;
      CStrStopsAtNul(s[1..], junk);
      assert s == [s[0]] + s[1..];
    }
  }

  /** The four fixed commands. */
  lemma ClassifyWords()
    ensures Classify("on\n") == PowerSwitch && Classify("off\n") == PowerSwitch
    ensures Classify("start\n") == StartStop && Classify("stop\n") == StartStop
  {
    CStrNoNul("on\n");
    CStrNoNul("off\n");
    CStrNoNul("start\n");
    CStrNoNul("stop\n");
  }

  /** A command made of a word, a blank, a printed number and a tail that neither continues
      the number nor holds a NUL: it is its own C string and "<word> %d" reads the number. */
  lemma WordNumber(word: string, ms: int, rest: string)
    requires '\0' !in word && '\0' !in rest
    requires rest == [] || !IsDigit(rest[0])
    ensures var user := word + " " + IntToString(ms) + rest;
      CStr(user) == user && |user| > |word| + 1 && ScanWordInt(user, word) == Some(ms)
  {
    var user := word + " " + IntToString(ms) + rest;
    IntToStringNoNul(ms);
    CStrNoNul(user);
    ScanWordIntToString(word, " ", ms, rest);
  }

  /** "sampling_period " followed by a printed number and anything that neither continues the
      number nor holds a NUL sets the device's sampling period to that number. */
  lemma ClassifyDevicePeriod(ms: int, rest: string)
    requires rest == [] || !IsDigit(rest[0])
    requires '\0' !in rest
    requires |"sampling_period " + IntToString(ms) + rest| <= MAX_STRING_COMMAND
    ensures Classify("sampling_period " + IntToString(ms) + rest) == DevicePeriod(ms)
  {
    var user := "sampling_period " + IntToString(ms) + rest;
    assert user == "sampling_period" + " " + IntToString(ms) + rest;
    WordNumber("sampling_period", ms, rest);
    assert user != "on\n" && user != "off\n" && user != "start\n" && user != "stop\n";
  }

  /** "timer_period " followed by a printed number sets the timer period. */
  lemma ClassifyTimerPeriod(ms: int, rest: string)
    requires rest == [] || !IsDigit(rest[0])
    requires '\0' !in rest
    requires |"timer_period " + IntToString(ms) + rest| <= MAX_STRING_COMMAND
    ensures Classify("timer_period " + IntToString(ms) + rest) == TimerPeriod(ms)
  {
    var user := "timer_period " + IntToString(ms) + rest;
    assert user == "timer_period" + " " + IntToString(ms) + rest;
    WordNumber("timer_period", ms, rest);
    assert user != "on\n" && user != "off\n" && user != "start\n" && user != "stop\n";
    NotWord(user, "sampling_period");
  }

  /** A command whose first character differs from the word's does not match "<word> %d". */
  lemma NotWord(s: string, word: string)
    requires |s| > 0 && |word| > 0 && s[0] != word[0]
    ensures ScanWordInt(s, word) == None
  {
    if |word| <= |s| {
      assert s[..|word|][0] != word[0];
    }
  }

  /** A NUL ends the command: whatever follows it is ignored. */
  lemma ClassifyStopsAtNul(cmd: string, junk: string)
    requires '\0' !in cmd
    requires |cmd + "\0" + junk| <= MAX_STRING_COMMAND
    ensures Classify(cmd + "\0" + junk) == Classify(cmd)
  {
    CStrStopsAtNul(cmd, junk);
    CStrNoNul(cmd);
  }

  lemma IntToStringNoNul(v: int)
    ensures '\0' !in IntToString(v)
  {
    var t := IntToString(v);
    if v >= 0 {
      assert forall k :: 0 <= k < |t| ==> IsDigit(t[k]);
    } else {
      var d := NatToString(-v);
      assert t == "-" + d;
      assert forall k :: 0 <= k < |d| ==> IsDigit(d[k]);
      assert forall k :: 1 <= k < |t| ==> t[k] == d[k - 1];
    }
  }

  // ---------------------------------------------------------------------------------------
  // What the report says

  /** `%d` reads back a printed reading, as long as the tag does not start with a digit. */
  lemma PrintIntReadsBack(val: int, tag: string, rest: string)
    requires val != UNAVAILABLE
    requires tag == [] || !IsDigit(tag[0])
    requires tag == [] ==> rest == [] || !IsDigit(rest[0])
    ensures ScanInt(PrintInt(val, tag) + rest, 0) == Some((val, |IntToString(val)|))
  {
    var t := IntToString(val);
    var s := PrintInt(val, tag) + rest;
    assert s == t + (tag + rest);
    assert s[0..|t|] == t;
    if |t| < |s| {
      assert s[|t|] == (tag + rest)[0];
    }
    ScanIntToString(val, s, 0);
  }

  /** The "--" of an unavailable reading is not a number. */
  lemma PrintIntMarker(tag: string, rest: string)
    ensures ScanInt(PrintInt(UNAVAILABLE, tag) + rest, 0) == None
  {
    var s := PrintInt(UNAVAILABLE, tag) + rest;
    assert s[0] == '-' && s[1] == '-';
    assert SkipSpaces(s, 0) == 0;
    assert DigitRun(s, 1) == 0;
  }

  /** The report starts with the number of samples, which `samples=%d` reads back. */
  lemma ReadTextCount(n: int, s: Sample, energy: nat)
    ensures ScanWordInt(ReadText(n, s, energy), "samples=") == Some(n)
  {
    var rest := ", " + (if n != 0 then ReadingsText(s) + EnergyText(energy) else "Nothing to read\n");
    assert ReadText(n, s, energy) == "samples=" + "" + IntToString(n) + rest;
    ScanWordIntToString("samples=", "", n, rest);
  }

  /** An empty window yields exactly "samples=0, Nothing to read\n". */
  lemma ReadTextEmpty(s: Sample, energy: nat)
    ensures ReadText(0, s, energy) == "samples=0, Nothing to read\n"
  {
    assert NatToString(0) == "0";
  }

  /** A non-empty window's report ends with the cumulative energy in `%llu` and "uJ\n". */
  lemma ReadTextEnergy(n: int, s: Sample, energy: nat)
    requires n != 0
    ensures var t, u := ReadText(n, s, energy), NatToString(energy) + "uJ\n";
      |u| <= |t| && t[|t| - |u|..] == u
  {
    var head := "samples=" + IntToString(n) + ", ";
    var r, u := ReadingsText(s), EnergyText(energy);
    var t := ReadText(n, s, energy);
    assert t == head + (r + u);
    assert t[|t| - |u|..] == (r + u)[|r|..];
  }
}
