/** The `MM:SS` display of the countdown timer (`formatTime`) and a reader for it. */
module ClockFormat {
  import opened Inputs

  predicate IsDigit(c: char) { '0' <= c <= '9' }

  predicate AllDigits(s: string) { forall i :: 0 <= i < |s| ==> IsDigit(s[i]) }

  function DigitValue(c: char): (d: int)
    requires IsDigit(c)
    ensures 0 <= d < 10
  {
    c as int - '0' as int
  }

  function DigitChar(d: int): (c: char)
    requires 0 <= d < 10
    ensures IsDigit(c) && DigitValue(c) == d
  {
    (d + '0' as int) as char
  }

  /** `String(n)` for a non-negative integer: its decimal digits, most significant
      first, without leading zeros. */
  function NatToDecimal(n: nat): (s: string)
    ensures 1 <= |s| && AllDigits(s)
    ensures (|s| == 1) == (n < 10)
    ensures n < 100 ==> |s| <= 2
    ensures |s| > 1 ==> s[0] != '0'
    decreases n
  {
    if n < 10 then [DigitChar(n)] else NatToDecimal(n / 10) + [DigitChar(n % 10)]
  }

  /** `String(i)` for any integer: a negative value gets a leading minus sign before
      the digits of its magnitude. */
  function IntToString(i: int): (s: string)
    ensures i >= 0 ==> s == NatToDecimal(i)
    ensures i >= 0 ==> AllDigits(s) && DecimalValue(s) == i
    ensures i < 0 ==> 2 <= |s| && s[0] == '-' && AllDigits(s[1..]) && DecimalValue(s[1..]) == -i
    ensures i < 0 ==> s[1..] == NatToDecimal(-i)
  {
    if i < 0 then
      DecimalValueOfNatToDecimal(-i);
      assert ("-" + NatToDecimal(-i))[1..] == NatToDecimal(-i);
      "-" + NatToDecimal(-i)
    else
      DecimalValueOfNatToDecimal(i);
      NatToDecimal(i)
  }

  /** `s.padStart(2, '0')`: zeros in front of `s` until it is two characters long;
      a longer string is left as it is. */
  function PadStart2(s: string): (r: string)
    ensures |r| == if |s| < 2 then 2 else |s|
    ensures r[|r| - |s|..] == s
    ensures forall i :: 0 <= i < |r| - |s| ==> r[i] == '0'
  {
    if |s| == 0 then "00" else if |s| == 1 then "0" + s else s
  }

  /** JavaScript's `time % 60`: the remainder takes the sign of `time`
      (Dafny's `%` never returns a negative value). Range, sign and "differs from
      `time` by a multiple of 60" together fix the value for every integer. */
  function JsRemainder60(time: int): (r: int)
    ensures -60 < r < 60
    ensures time >= 0 ==> r == time % 60
    ensures time <= 0 ==> r <= 0
    ensures (time - r) % 60 == 0
  {
    if time >= 0 then time % 60
    else
      var q := (-time) / 60;
      assert time + (-time) % 60 == -60 * q;
      -((-time) % 60)
  }

  /** `formatTime`: minutes `Math.floor(time / 60)` and seconds `time % 60`, each
      padded to two characters. For a positive divisor Dafny's `/` already rounds
      down, as `Math.floor` does. A non-negative time shows a minutes field, `:` and
      a two-character seconds field; a negative one starts with a minus sign. */
  function FormatTime(time: int): (r: string)
    ensures time >= 0 ==> 5 <= |r| && r[|r| - 3] == ':'
    ensures time < 0 ==> 0 < |r| && r[0] == '-'
  {
    PadStart2(IntToString(time / 60)) + ":" + PadStart2(IntToString(JsRemainder60(time)))
  }

  /** The value of a string of decimal digits, most significant first; leading
      zeros are allowed. */
  function DecimalValue(s: string): nat
    requires AllDigits(s)
    decreases |s|
  {
    if s == [] then 0 else DecimalValue(s[..|s| - 1]) * 10 + DigitValue(s[|s| - 1])
  }

  /** Reads a clock display back into seconds: a field of digits, `:`, and a
      two-digit seconds field below 60. Anything else is `None`. */
  function ParseClock(s: string): (t: Option<int>)
    ensures t.Some? ==> t.value >= 0
  {
    if |s| >= 4 && s[|s| - 3] == ':' && AllDigits(s[..|s| - 3]) && AllDigits(s[|s| - 2..])
       && DecimalValue(s[|s| - 2..]) < 60
    then Some(DecimalValue(s[..|s| - 3]) * 60 + DecimalValue(s[|s| - 2..]))
    else None
  }

  lemma {:induction false} DecimalValueOfNatToDecimal(n: nat)
    ensures DecimalValue(NatToDecimal(n)) == n
    decreases n
  {
    if n >= 10 {
      var s := NatToDecimal(n);
      assert s[..|s| - 1] == NatToDecimal(n / 10);
      DecimalValueOfNatToDecimal(n / 10);
    }
  }

  lemma {:induction false} LeadingZero(s: string)
    requires AllDigits(s)
    ensures AllDigits("0" + s) && DecimalValue("0" + s) == DecimalValue(s)
    decreases |s|
  {
    var t := "0" + s;
    if s != [] {
      assert t[..|t| - 1] == "0" + s[..|s| - 1];
      LeadingZero(s[..|s| - 1]);
    }
  }

  lemma PadStart2Value(s: string)
    requires AllDigits(s)
    ensures AllDigits(PadStart2(s)) && DecimalValue(PadStart2(s)) == DecimalValue(s)
  {
    if |s| < 2 {
      LeadingZero(s);
      LeadingZero("0" + s);
    }
  }

  lemma ParseClockOfFields(mm: string, ss: string, minutes: int, seconds: int)
    requires 1 <= |mm| && AllDigits(mm) && DecimalValue(mm) == minutes
    requires |ss| == 2 && AllDigits(ss) && DecimalValue(ss) == seconds && seconds < 60
    ensures ParseClock(mm + ":" + ss) == Some(minutes * 60 + seconds)
  {
    var s := mm + ":" + ss;
    assert s[..|s| - 3] == mm;
    assert s[|s| - 2..] == ss;
  }

  lemma FormatTimeFields(time: int)
    requires time >= 0
    ensures FormatTime(time) == PadStart2(NatToDecimal(time / 60)) + ":" + PadStart2(NatToDecimal(time % 60))
  {
    assert IntToString(time / 60) == NatToDecimal(time / 60);
    assert IntToString(JsRemainder60(time)) == NatToDecimal(time % 60);
  }

  /** A padded field holds the digits of `n` and reads back as `n`; below 100 it is
      exactly two characters. */
  lemma PaddedField(n: nat)
    ensures var f := PadStart2(NatToDecimal(n));
      1 <= |f| && AllDigits(f) && DecimalValue(f) == n && (n < 100 ==> |f| == 2)
  {
    PadStart2Value(NatToDecimal(n));
    DecimalValueOfNatToDecimal(n);
  }

  /** The two padded fields of a time of `m` minutes and `sec` seconds read back as
      that time, whatever the number of minutes. */
  lemma FieldsRoundTrip(m: nat, sec: nat)
    requires sec < 60
    ensures ParseClock(PadStart2(NatToDecimal(m)) + ":" + PadStart2(NatToDecimal(sec))) == Some(m * 60 + sec)
  {
    PaddedField(m);
    PaddedField(sec);
    ParseClockOfFields(PadStart2(NatToDecimal(m)), PadStart2(NatToDecimal(sec)), m, sec);
  }

  /** For every non-negative time the display reads back as that time: the seconds
      field is below 60 and minutes * 60 + seconds is the time, and minutes are not
      wrapped at 60. */
  lemma FormatTimeRoundTrip(time: int)
    requires time >= 0
    ensures ParseClock(FormatTime(time)) == Some(time)
  {
    var m, sec := time / 60, time % 60;
    assert m * 60 + sec == time;
    calc {
      ParseClock(FormatTime(time));
      { FormatTimeFields(time); }
      ParseClock(PadStart2(NatToDecimal(m)) + ":" + PadStart2(NatToDecimal(sec)));
      { FieldsRoundTrip(m, sec); }
      Some(time);
    }
  }

  /** Two different non-negative times never show the same display. */
  lemma FormatTimeInjective(a: int, b: int)
    requires a >= 0 && b >= 0
    requires FormatTime(a) == FormatTime(b)
    ensures a == b
  {
    FormatTimeRoundTrip(a);
    FormatTimeRoundTrip(b);
  }

  /** Two sample displays: 125 seconds and 0 seconds. */
  lemma FormatTimeExamples()
    ensures FormatTime(125) == "02:05"
    ensures FormatTime(0) == "00:00"
  {
    assert IntToString(2) == "2" && IntToString(5) == "5" && IntToString(0) == "0";
  }

  /** What a negative time left shows: `Math.floor` gives -1 minutes and the
      truncating `%` gives -5 seconds, both already two characters long. */
  lemma FormatNegativeTime()
    ensures FormatTime(-5) == "-1:-5"
  {
    assert -5 / 60 == -1 && JsRemainder60(-5) == -5;
    assert IntToString(-1) == "-1" && IntToString(-5) == "-5";
  }
}
