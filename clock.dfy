/** Times of day as the digest prints them: strftime("%H:%M") on a UTC timestamp. */
module Clock {
  import opened Wrappers

  type Hour = h: nat | h < 24
  type Minute = m: nat | m < 60

  /** The hour and minute of an event timestamp; its date never reaches the text. */
  datatype Time = Time(hour: Hour, minute: Minute)

  predicate IsDigit(c: char) {
    '0' <= c <= '9'
  }

  function DigitValue(c: char): (d: nat)
    requires IsDigit(c)
    ensures d < 10
  {
    c as int - '0' as int
  }

  function DigitChar(d: nat): (c: char)
    requires d < 10
    ensures IsDigit(c) && DigitValue(c) == d
  {
    ('0' as int + d) as char
  }

  lemma DigitCharValue(c: char)
    requires IsDigit(c)
    ensures DigitChar(DigitValue(c)) == c
  {
  }

  /** Two zero-padded decimal digits, as %H and %M print them. */
  function TwoDigits(n: nat): (s: string)
    requires n < 100
    ensures |s| == 2 && IsDigit(s[0]) && IsDigit(s[1])
    ensures 10 * DigitValue(s[0]) + DigitValue(s[1]) == n
  {
    [DigitChar(n / 10), DigitChar(n % 10)]
  }

  /** strftime("%H:%M"): always five characters, two digits for the hour,
      a colon, two digits for the minute. */
  function FormatTime(t: Time): (s: string)
    ensures |s| == 5 && s[2] == ':'
    ensures IsDigit(s[0]) && IsDigit(s[1]) && IsDigit(s[3]) && IsDigit(s[4])
    ensures 10 * DigitValue(s[0]) + DigitValue(s[1]) == t.hour
    ensures 10 * DigitValue(s[3]) + DigitValue(s[4]) == t.minute
  {
    TwoDigits(t.hour) + ":" + TwoDigits(t.minute)
  }

  /** Reads an "HH:MM" text back; everything that is not a valid time of day is rejected. */
  function ParseTime(s: string): (r: Option<Time>)
    ensures r.Some? ==> FormatTime(r.value) == s
  {
    if |s| == 5 && s[2] == ':' && IsDigit(s[0]) && IsDigit(s[1]) && IsDigit(s[3]) && IsDigit(s[4]) then
      var h := 10 * DigitValue(s[0]) + DigitValue(s[1]);
      var m := 10 * DigitValue(s[3]) + DigitValue(s[4]);
      if h < 24 && m < 60 then
        var t := Time(h, m);
        DigitsDetermine(FormatTime(t), s);
        Some(t)
      else None
    else None
  }

  /** Two five-character times whose digits denote the same values are the same text. */
  lemma DigitsDetermine(a: string, b: string)
    requires |a| == 5 && |b| == 5 && a[2] == ':' && b[2] == ':'
    requires IsDigit(a[0]) && IsDigit(a[1]) && IsDigit(a[3]) && IsDigit(a[4])
    requires IsDigit(b[0]) && IsDigit(b[1]) && IsDigit(b[3]) && IsDigit(b[4])
    requires 10 * DigitValue(a[0]) + DigitValue(a[1]) == 10 * DigitValue(b[0]) + DigitValue(b[1])
    requires 10 * DigitValue(a[3]) + DigitValue(a[4]) == 10 * DigitValue(b[3]) + DigitValue(b[4])
    ensures a == b
  {
    DigitCharValue(a[0]); DigitCharValue(a[1]); DigitCharValue(a[3]); DigitCharValue(a[4]);
    DigitCharValue(b[0]); DigitCharValue(b[1]); DigitCharValue(b[3]); DigitCharValue(b[4]);
    assert a[0] == b[0] && a[1] == b[1] && a[3] == b[3] && a[4] == b[4];
  }

  /** The formatted time reads back as the time it was made from. */
  lemma ParseFormat(t: Time)
    ensures ParseTime(FormatTime(t)) == Some(t)
  {
  }

  /** Two times print the same text exactly when they are the same time. */
  lemma FormatTimeInjective(t: Time, u: Time)
    ensures FormatTime(t) == FormatTime(u) <==> t == u
  {
    ParseFormat(t);
    ParseFormat(u);
  }
}
