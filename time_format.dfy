/**
 * `MusicPlayer.formatTime`: a number of seconds rendered as `M:SS`, the text of
 * the elapsed-time and duration displays.
 *
 * The argument is an IEEE double in the player, usually fractional
 * (`audio.currentTime`, `audio.duration`). This model covers two cases: NaN
 * (the duration before metadata arrives) and a whole, non-negative number of
 * seconds below 2^53; fractional and negative inputs are left out.
 */
module TimeFormat {
  import opened Wrappers

  datatype TimeValue = NotANumber | Seconds(whole: nat)

  /** The decimal digit character for `d`. */
  function DigitChar(d: nat): (c: char)
    requires d < 10
    ensures '0' <= c <= '9'
    ensures c == '0' <==> d == 0
  {
    (('0' as int) + d) as char
  }

  /** The value of a decimal digit character; the inverse of DigitChar. */
  function DigitValue(c: char): (d: nat)
    requires '0' <= c <= '9'
    ensures d < 10 && DigitChar(d) == c
  {
    (c as int) - ('0' as int)
  }

  predicate IsDigit(c: char) {
    '0' <= c <= '9'
  }

  /**
   * The number a run of decimal digits denotes, most significant first; None
   * for the empty string or any string holding a non-digit.
   */
  function ParseDigits(s: string): Option<nat> {
    if s == [] || !IsDigit(s[|s| - 1]) then None
    else if |s| == 1 then Some(DigitValue(s[0]))
    else match ParseDigits(s[..|s| - 1])
      case None => None
      case Some(high) => Some(high * 10 + DigitValue(s[|s| - 1]))
  }

  /**
   * `n.toString()` for a whole number: its decimal digits, most significant
   * first, with no leading zero.
   */
  function Decimal(n: nat): (s: string)
    ensures |s| >= 1 && (n > 0 ==> s[0] != '0')
    ensures |s| == 1 <==> n < 10
  {
    if n < 10 then [DigitChar(n)] else Decimal(n / 10) + [DigitChar(n % 10)]
  }

  /** Reading back the digits Decimal writes gives the number again. */
  lemma {:induction false} DecimalRoundTrip(n: nat)
    ensures ParseDigits(Decimal(n)) == Some(n)
  {
    if n >= 10 {
      var high := Decimal(n / 10);
      DecimalRoundTrip(n / 10);
      assert (high + [DigitChar(n % 10)])[..|high|] == high;
    }
  }

  /** `s.padStart(width, fill)`: `fill` prepended until `s` is `width` long. */
  function PadStart(s: string, width: nat, fill: char): (r: string)
    ensures |r| == if |s| >= width then |s| else width
  {
    if |s| >= width then s else seq(width - |s|, _ => fill) + s
  }

  /** Padding keeps the string at the end and puts only `fill` before it. */
  lemma PadStartShape(s: string, width: nat, fill: char)
    ensures var r := PadStart(s, width, fill);
      r[|r| - |s|..] == s && forall i :: 0 <= i < |r| - |s| ==> r[i] == fill
  {
  }

  /**
   * `formatTime(time)`: "0:00" for NaN; otherwise the whole minutes, a colon,
   * and the seconds within the minute padded to two digits. Every display ends
   * in a colon and two digits whose first is at most 5.
   */
  function FormatTime(t: TimeValue): (r: string)
    ensures |r| >= 4 && r[|r| - 3] == ':'
    ensures '0' <= r[|r| - 2] <= '5' && '0' <= r[|r| - 1] <= '9'
  {
    match t
    case NotANumber => "0:00"
    case Seconds(secs) =>
      SecondsField(secs % 60);
      Decimal(secs / 60) + ":" + PadStart(Decimal(secs % 60), 2, '0')
  }

  /** The seconds within a minute are always written as two digits. */
  lemma SecondsField(s: nat)
    requires s < 60
    ensures PadStart(Decimal(s), 2, '0') == [DigitChar(s / 10), DigitChar(s % 10)]
  {
    if s >= 10 {
      assert Decimal(s / 10) == [DigitChar(s / 10)];
      assert Decimal(s) == [DigitChar(s / 10), DigitChar(s % 10)];
    } else {
      assert Decimal(s) == [DigitChar(s)];
    }
  }

  /**
   * The text for `secs` is the minutes `q`, a colon and the two digits of the
   * seconds `s` within the minute.
   */
  lemma FormatTimeFields(secs: nat, q: nat, s: nat)
    requires q == secs / 60 && s == secs % 60
    ensures s < 60 && secs == q * 60 + s
    ensures FormatTime(Seconds(secs)) == Decimal(q) + [':', DigitChar(s / 10), DigitChar(s % 10)]
  {
    SecondsField(s);
  }

  /**
   * The reading of an `M:SS` display: minutes, a colon, and two digits below 60.
   * Text of any other shape reads as None.
   */
  function ParseTime(r: string): Option<nat> {
    if |r| < 3 || r[|r| - 3] != ':' then None
    else match (ParseDigits(r[..|r| - 3]), ParseDigits(r[|r| - 2..]))
      case (Some(minutes), Some(seconds)) =>
        if seconds < 60 then Some(minutes * 60 + seconds) else None
      case _ => None
  }

  /** Two digits are read as tens and units. */
  lemma TwoDigitsValue(a: nat, b: nat)
    requires a < 10 && b < 10
    ensures ParseDigits([DigitChar(a), DigitChar(b)]) == Some(a * 10 + b)
  {
    assert [DigitChar(a), DigitChar(b)][..1] == [DigitChar(a)];
  }

  /** An `M:SS` text built from digits reads back as minutes * 60 + seconds. */
  lemma ParseTimeOf(m: string, minutes: nat, a: nat, b: nat)
    requires ParseDigits(m) == Some(minutes) && a < 6 && b < 10
    ensures ParseTime(m + [':', DigitChar(a), DigitChar(b)]) == Some(minutes * 60 + (a * 10 + b))
  {
    var r := m + [':', DigitChar(a), DigitChar(b)];
    assert r[..|r| - 3] == m;
    assert r[|r| - 2..] == [DigitChar(a), DigitChar(b)];
    TwoDigitsValue(a, b);
  }

  /**
   * The displayed text determines the number of seconds: reading
   * `FormatTime(Seconds(secs))` back gives `secs`, so the seconds field is
   * always 00..59 and the minutes carry the rest.
   */
  lemma FormatTimeRoundTrip(secs: nat)
    ensures ParseTime(FormatTime(Seconds(secs))) == Some(secs)
  {
    var q, s := secs / 60, secs % 60;
    var a, b := s / 10, s % 10;
    assert s == a * 10 + b;
    FormatTimeFields(secs, q, s);
    DecimalRoundTrip(q);
    ParseTimeOf(Decimal(q), q, a, b);
  }

  /** NaN is displayed exactly like zero seconds. */
  lemma NotANumberLooksLikeZero()
    ensures FormatTime(NotANumber) == FormatTime(Seconds(0)) == "0:00"
  {
    FormatTimeFields(0, 0, 0);
  }

  /** The worked examples of the display: 5 s, 65 s and one hour. */
  lemma FormatTimeExamples()
    ensures FormatTime(Seconds(5)) == "0:05"
    ensures FormatTime(Seconds(65)) == "1:05"
    ensures FormatTime(Seconds(3600)) == "60:00"
  {
    FormatTimeFields(5, 0, 5);
    FormatTimeFields(65, 1, 5);
    FormatTimeFields(3600, 60, 0);
    assert Decimal(60) == Decimal(6) + [DigitChar(0)];
  }
}
