/** The bot's duration rendering: `format_time` turns a millisecond count into
    `HH:MM:SS`, and `countdown` shows each remaining second the same way.
    Python's `//` and `%` round toward negative infinity; with the positive
    divisors used here Dafny's Euclidean `/` and `%` agree with them, so
    negative inputs are covered as well. */
module Clock {
  import opened Wrappers

  /** An hours/minutes/seconds triple. */
  datatype Hms = Hms(hours: int, minutes: int, seconds: int)

  predicate IsDigit(c: char) {
    '0' <= c <= '9'
  }

  predicate AllDigits(s: string) {
    forall i :: 0 <= i < |s| ==> IsDigit(s[i])
  }

  function DigitChar(d: nat): (c: char)
    requires d < 10
    ensures IsDigit(c)
  {
    ('0' as int + d) as char
  }

  function DigitValue(c: char): (d: nat)
    requires IsDigit(c)
    ensures d < 10 && DigitChar(d) == c
  {
    c as int - '0' as int
  }

  /** Decimal digits of a natural number, most significant first, without
      leading zeros. */
  function Decimal(n: nat): (s: string)
    ensures 1 <= |s| && AllDigits(s)
    ensures n < 10 <==> |s| == 1
    ensures 10 <= n < 100 ==> |s| == 2
  {
    if n < 10 then [DigitChar(n)] else Decimal(n / 10) + [DigitChar(n % 10)]
  }

  /** The value of a string of decimal digits; the empty string reads as 0. */
  function ParseDecimal(s: string): nat
    requires AllDigits(s)
  {
    if s == [] then 0 else 10 * ParseDecimal(s[..|s| - 1]) + DigitValue(s[|s| - 1])
  }

  /** Python's `str(n)` for an integer. */
  function IntToString(n: int): string {
    if n < 0 then "-" + Decimal(-n) else Decimal(n)
  }

  /** Python's `s.zfill(width)`: left-pad with zeros to `width`, keeping a
      leading sign in front; strings already wide enough are unchanged. */
  function ZFill(s: string, width: nat): string {
    if |s| >= width then s
    else if s != [] && (s[0] == '+' || s[0] == '-') then [s[0]] + Zeros(width - |s|) + s[1..]
    else Zeros(width - |s|) + s
  }

  function Zeros(k: nat): (z: string)
    ensures |z| == k && forall i :: 0 <= i < k ==> z[i] == '0'
  {
    if k == 0 then "" else "0" + Zeros(k - 1)
  }

  /** Python's `f"{n:02}"`: sign-aware zero padding to a minimum width of 2.
      A negative number already has a sign and a digit, so it is never padded. */
  function Pad2(n: int): (s: string)
    ensures 2 <= |s|
    ensures n >= 0 ==> AllDigits(s) && ParseDecimal(s) == n
    ensures n >= 0 ==> |s| == if n < 10 then 2 else |Decimal(n)|
    ensures n < 0 ==> s == "-" + Decimal(-n)
  {
    if n < 0 then "-" + Decimal(-n)
    else if n < 10 then
      LeadingZero(Decimal(n));
      ParseDecimalOfDecimal(n);
      "0" + Decimal(n)
    else
      ParseDecimalOfDecimal(n);
      Decimal(n)
  }

  /** The arithmetic of `format_time`: whole seconds, then hours, the minutes
      left over from the hours, and the seconds left over from the minutes. */
  function Split(ms: int): (t: Hms)
    ensures t.hours == ms / 3_600_000
    ensures 0 <= t.minutes < 60 && 0 <= t.seconds < 60
    ensures t.hours * 3600 + t.minutes * 60 + t.seconds == ms / 1000
  {
    var total := ms / 1000;
    DivDiv(ms);
    Hms(total / 3600, (total % 3600) / 60, total % 60)
  }

  /** `format_time(ms)`: three colon-separated fields, each at least two
      characters; for a non-negative input nothing but digits and colons. */
  function FormatTime(ms: int): (s: string)
    ensures |s| >= 8
    ensures ms >= 0 ==> forall i :: 0 <= i < |s| ==> s[i] == ':' || IsDigit(s[i])
  {
    Render(Split(ms))
  }

  function Render(t: Hms): string {
    Pad2(t.hours) + ":" + Pad2(t.minutes) + ":" + Pad2(t.seconds)
  }

  /** The two `divmod` steps of `countdown` applied to `i` seconds. */
  function CountdownSplit(i: int): (t: Hms)
    ensures t.hours * 3600 + t.minutes * 60 + t.seconds == i
    ensures 0 <= t.minutes < 60 && 0 <= t.seconds < 60
  {
    var minute, seconds := i / 60, i % 60;
    var hour, minute' := minute / 60, minute % 60;
    Hms(hour, minute', seconds)
  }

  /** The line `countdown` writes for a split of the remaining seconds: each
      field is `str(...).zfill(2)`. */
  function CountdownLine(t: Hms): (line: string)
    ensures line == WaitingLine(Render(t))
  {
    ZFillIsPad2(t.hours);
    ZFillIsPad2(t.minutes);
    ZFillIsPad2(t.seconds);
    WaitingLine(ZFill(IntToString(t.hours), 2) + ":" + ZFill(IntToString(t.minutes), 2)
      + ":" + ZFill(IntToString(t.seconds), 2))
  }

  /** The line `countdown` writes with `i` seconds remaining. */
  function CountdownLabel(i: int): string {
    CountdownLine(CountdownSplit(i))
  }

  function WaitingLine(clock: string): string {
    "Waiting for " + clock + " remaining...\r"
  }

  /** The steps of `countdown(t)`, one per second from `t` down to 1, each
      the split of the seconds remaining; step k is written as
      `CountdownLine(steps[k])`, which is `CountdownLabel(t - k)`. The
      one-second sleeps between them are not modelled. */
  method Countdown(t: int) returns (steps: seq<Hms>)
    ensures |steps| == if t > 0 then t else 0
    ensures forall k :: 0 <= k < |steps| ==> steps[k] == CountdownSplit(t - k)
  {
    steps := [];
    var i := t;
    while i > 0
      invariant if t > 0 then 0 <= i <= t && |steps| == t - i else i == t && steps == []
      invariant forall k :: 0 <= k < |steps| ==> steps[k] == CountdownSplit(t - k)
    {
      steps := steps + [CountdownSplit(i)];
      i := i - 1;
    }
  }

  /** Splitting a string at every occurrence of `sep`, as Python's
      `s.split(sep)` does for a one-character separator. */
  function SplitOn(s: string, sep: char): (parts: seq<string>)
    ensures |parts| >= 1
    decreases |s|
  {
    if s == [] then [""]
    else
      var rest := SplitOn(s[1..], sep);
      if s[0] == sep then [""] + rest else [[s[0]] + rest[0]] + rest[1..]
  }

  /** Reads an optionally negative decimal field. */
  function ParseField(s: string): Option<int> {
    if s != [] && s[0] == '-' && |s| >= 2 && AllDigits(s[1..]) then Some(0 - ParseDecimal(s[1..]))
    else if s != [] && AllDigits(s) then Some(ParseDecimal(s))
    else None
  }

  /** Reads `HH:MM:SS` back into its three fields: the inverse of `Render`. */
  function ParseClock(s: string): Option<Hms> {
    var parts := SplitOn(s, ':');
    if |parts| != 3 then None
    else
      match (ParseField(parts[0]), ParseField(parts[1]), ParseField(parts[2]))
      case (Some(h), Some(m), Some(sec)) => Some(Hms(h, m, sec))
      case _ => None
  }

  // ---------------------------------------------------------------------
  // Properties of format_time and countdown

  /** Dividing by 1000 and then by 3600 is dividing by 3 600 000. */
  lemma DivDiv(ms: int)
    ensures (ms / 1000) / 3600 == ms / 3_600_000
  {
    var q, r := ms / 1000, ms % 1000;
    var q2, r2 := q / 3600, q % 3600;
    assert ms == 3_600_000 * q2 + (1000 * r2 + r);
    assert 0 <= 1000 * r2 + r < 3_600_000;
  }

  /** The sub-second part of the input never shows: rounding the input down
      to a whole second leaves the output unchanged. */
  lemma FormatTimeIgnoresMillis(ms: int)
    ensures FormatTime(ms) == FormatTime(ms - ms % 1000)
    ensures Split(ms) == Split(ms - ms % 1000)
  {
    var q := ms / 1000;
    assert ms - ms % 1000 == 1000 * q;
    assert (ms - ms % 1000) / 1000 == q;
  }

  /** For a non-negative input of fewer than 100 hours the output is exactly
      eight characters: two digits, a colon, two digits, a colon, two digits. */
  lemma FormatTimeShape(ms: int)
    requires 0 <= ms < 360_000_000
    ensures var s := FormatTime(ms);
      |s| == 8 && s[2] == ':' && s[5] == ':'
      && IsDigit(s[0]) && IsDigit(s[1]) && IsDigit(s[3]) && IsDigit(s[4])
      && IsDigit(s[6]) && IsDigit(s[7])
  {
    var t := Split(ms);
    assert 0 <= t.hours < 100;
    assert |Pad2(t.hours)| == 2 && |Pad2(t.minutes)| == 2 && |Pad2(t.seconds)| == 2;
  }

  /** Fields are never truncated: each field reads back as the number that
      went in, whatever the number of hours (negative hours included). */
  lemma {:induction false} FormatTimeRoundTrip(ms: int)
    ensures ParseClock(FormatTime(ms)) == Some(Split(ms))
  {
    var t := Split(ms);
    var a, b, c := Pad2(t.hours), Pad2(t.minutes), Pad2(t.seconds);
    PadFieldNoColon(t.hours);
    PadFieldNoColon(t.minutes);
    PadFieldNoColon(t.seconds);
    assert FormatTime(ms) == a + [':'] + (b + [':'] + c);
    SplitOnNoSep(c, ':');
    SplitOnCons(b, c, ':');
    SplitOnCons(a, b + [':'] + c, ':');
    assert SplitOn(FormatTime(ms), ':') == [a, b, c];
    ParseFieldPad2(t.hours);
    ParseFieldPad2(t.minutes);
    ParseFieldPad2(t.seconds);
  }

  /** `countdown`'s divmod split of `i` seconds is `format_time`'s split of
      `i * 1000` milliseconds, and its `zfill(2)` fields read the same as
      `format_time`'s `:02` fields. */
  lemma CountdownMatchesFormatTime(i: int)
    ensures CountdownSplit(i) == Split(i * 1000)
    ensures CountdownLabel(i) == WaitingLine(FormatTime(i * 1000))
  {
    assert (i * 1000) / 1000 == i;
    var t := CountdownSplit(i);
    var u := Split(i * 1000);
    DivDiv(i * 1000);
    DivDiv2(i);
  }

  lemma DivDiv2(i: int)
    ensures (i / 60) / 60 == i / 3600
    ensures (i / 60) % 60 == (i % 3600) / 60
  {
    var q, r := i / 60, i % 60;
    var q2, r2 := q / 60, q % 60;
    assert i == 3600 * q2 + (60 * r2 + r);
    assert i / 3600 == q2;
    assert i % 3600 == 60 * r2 + r;
    assert (i % 3600) / 60 == r2;
  }

  /** `str(n).zfill(2)` and `f"{n:02}"` agree on every integer. */
  lemma ZFillIsPad2(n: int)
    ensures ZFill(IntToString(n), 2) == Pad2(n)
  {
    if 0 <= n < 10 {
      assert Zeros(1) == "0";
    }
  }

  lemma PadFieldNoColon(n: int)
    ensures ':' !in Pad2(n)
  {
    if n >= 0 {
      assert forall i :: 0 <= i < |Pad2(n)| ==> IsDigit(Pad2(n)[i]);
    } else {
      var d := Decimal(-n);
      assert forall i :: 0 <= i < |d| ==> IsDigit(d[i]);
    }
  }

  lemma ParseFieldPad2(n: int)
    ensures ParseField(Pad2(n)) == Some(n)
  {
    if n < 0 {
      ParseFieldNegative(-n);
    } else {
      ParseFieldNatural(n);
    }
  }

  lemma ParseFieldNatural(n: nat)
    ensures ParseField(Pad2(n)) == Some(n)
  {
    var s := Pad2(n);
    assert IsDigit(s[0]);
  }

  lemma ParseFieldNegative(m: nat)
    requires m > 0
    ensures ParseField("-" + Decimal(m)) == Some(0 - m)
  {
    var d := Decimal(m);
    var s := "-" + d;
    assert s[1..] == d;
    ParseDecimalOfDecimal(m);
  }

  lemma {:induction false} SplitOnNoSep(s: string, sep: char)
    requires sep !in s
    ensures SplitOn(s, sep) == [s]
    decreases |s|
  {
    if s != [] {
      SplitOnNoSep(s[1..], sep);
      assert s[0] != sep;
      assert [s[0]] + s[1..] == s;
    }
  }

  lemma {:induction false} SplitOnCons(a: string, b: string, sep: char)
    requires sep !in a
    ensures SplitOn(a + [sep] + b, sep) == [a] + SplitOn(b, sep)
    decreases |a|
  {
    if a == [] {
      assert a + [sep] + b == [sep] + b;
      assert ([sep] + b)[1..] == b;
    } else {
      assert (a + [sep] + b)[1..] == a[1..] + [sep] + b;
      SplitOnCons(a[1..], b, sep);
      assert [a[0]] + a[1..] == a;
    }
  }

  /** Reading the decimal digits of `n` gives back `n`. */
  lemma {:induction false} ParseDecimalOfDecimal(n: nat)
    ensures ParseDecimal(Decimal(n)) == n
    decreases n
  {
    if n >= 10 {
      var s := Decimal(n);
      assert s[..|s| - 1] == Decimal(n / 10);
      ParseDecimalOfDecimal(n / 10);
    }
  }

  /** A leading zero does not change the value of a digit string. */
  lemma {:induction false} LeadingZero(s: string)
    requires AllDigits(s)
    ensures AllDigits("0" + s) && ParseDecimal("0" + s) == ParseDecimal(s)
    decreases |s|
  {
    if s != [] {
      var z := "0" + s;
      assert z[..|z| - 1] == "0" + s[..|s| - 1];
      LeadingZero(s[..|s| - 1]);
    }
  }
}
