/**
 * The runtime readout: a duration in whole seconds split by two divmod-by-60
 * steps into hours, minutes and seconds and rendered as HHHH:MM:SS, each
 * field zero-padded to its minimum width (a longer hour count is not cut).
 */
module TimeFormat {

  /** Hours, minutes and seconds of a duration. */
  datatype Clock = Clock(hours: nat, minutes: nat, seconds: nat)

  /** `divmod(sec, 60)` and then `divmod(minutes, 60)`. */
  function Split(sec: nat): (c: Clock)
    ensures c.minutes < 60 && c.seconds < 60
    ensures c.hours * 3600 + c.minutes * 60 + c.seconds == sec
  {
    var totalMinutes := sec / 60;
    Clock(totalMinutes / 60, totalMinutes % 60, sec % 60)
  }

  /** No other split has minutes and seconds below 60 and adds up to `sec`. */
  lemma SplitUnique(sec: nat, c: Clock)
    requires c.minutes < 60 && c.seconds < 60
    requires c.hours * 3600 + c.minutes * 60 + c.seconds == sec
    ensures c == Split(sec)
  {
    var m := c.hours * 60 + c.minutes;
    assert sec == m * 60 + c.seconds;
    assert sec / 60 == m && sec % 60 == c.seconds;
    assert m / 60 == c.hours && m % 60 == c.minutes;
  }

  predicate IsDigit(ch: char)
  {
    '0' <= ch <= '9'
  }

  predicate AllDigits(s: string)
  {
    forall k :: 0 <= k < |s| ==> IsDigit(s[k])
  }

  /** The character of decimal digit `d`. */
  function DigitChar(d: nat): (ch: char)
    requires d < 10
    ensures IsDigit(ch)
  {
    (48 + d) as char
  }

  /** The value of a digit character (0 for any other character). */
  function DigitValue(ch: char): (d: nat)
  {
    if IsDigit(ch) then ch as int - 48 else 0
  }

  /** Decimal notation of `n` without leading zeros (`str(n)`). */
  function Decimal(n: nat): (s: string)
    ensures 1 <= |s| && AllDigits(s)
  {
    if n < 10 then [DigitChar(n)] else Decimal(n / 10) + [DigitChar(n % 10)]
  }

  /** `count` zero characters. */
  function Zeros(count: nat): string
  {
    seq(count, _ => '0')
  }

  /** `%0<width>d`: the decimal notation of `n`, left-padded with zeros to at least `width`. */
  function ZeroPad(n: nat, width: nat): (s: string)
    ensures |s| == if |Decimal(n)| < width then width else |Decimal(n)|
    ensures AllDigits(s)
  {
    var digits := Decimal(n);
    if |digits| < width then Zeros(width - |digits|) + digits else digits
  }

  /** `"%04d:%02d:%02d" % (h, m, s)` of the split of `sec`. */
  function Format(sec: nat): string
  {
    var c := Split(sec);
    ZeroPad(c.hours, 4) + ":" + ZeroPad(c.minutes, 2) + ":" + ZeroPad(c.seconds, 2)
  }

  /** Reads a string of digits back as a number. */
  function ParseDecimal(s: string): nat
  {
    if s == [] then 0 else 10 * ParseDecimal(s[..|s| - 1]) + DigitValue(s[|s| - 1])
  }

  /** Reads a rendered readout back as seconds: hours before the last two colon fields. */
  function ParseClock(t: string): nat
    requires |t| >= 6
  {
    ParseDecimal(t[..|t| - 6]) * 3600
      + ParseDecimal(t[|t| - 5..|t| - 3]) * 60
      + ParseDecimal(t[|t| - 2..])
  }

  lemma {:induction false} DecimalRoundTrip(n: nat)
    ensures ParseDecimal(Decimal(n)) == n
  {
    if n >= 10 {
      var s := Decimal(n);
      assert s[..|s| - 1] == Decimal(n / 10);
      DecimalRoundTrip(n / 10);
    }
  }

  /** Leading zeros do not change the value read. */
  lemma {:induction false} LeadingZeros(count: nat, s: string)
    ensures ParseDecimal(Zeros(count) + s) == ParseDecimal(s)
    decreases |s|, count
  {
    if s == [] {
      assert Zeros(count) + s == Zeros(count);
      if count > 0 {
        assert Zeros(count)[..count - 1] == Zeros(count - 1) + [];
        LeadingZeros(count - 1, []);
      }
    } else {
      var t := Zeros(count) + s;
      assert t[..|t| - 1] == Zeros(count) + s[..|s| - 1];
      LeadingZeros(count, s[..|s| - 1]);
    }
  }

  lemma ZeroPadRoundTrip(n: nat, width: nat)
    ensures ParseDecimal(ZeroPad(n, width)) == n
  {
    var digits := Decimal(n);
    DecimalRoundTrip(n);
    if |digits| < width {
      assert ZeroPad(n, width) == Zeros(width - |digits|) + digits;
      LeadingZeros(width - |digits|, digits);
    } else {
      assert ZeroPad(n, width) == digits;
    }
  }

  /** A number below 10^k needs at most k digits. */
  lemma {:induction false} DecimalWidth(n: nat, k: nat)
    requires 1 <= k && n < Pow10(k)
    ensures |Decimal(n)| <= k
  {
    if n >= 10 {
      assert k >= 2;
      DecimalWidth(n / 10, k - 1);
    }
  }

  function Pow10(k: nat): (p: nat)
    ensures p >= 1
  {
    if k == 0 then 1 else 10 * Pow10(k - 1)
  }

  /**
   * The readout has two-digit minutes and seconds after the last two colons,
   * digits everywhere else, is exactly ten characters long while the hours
   * fit in four digits, each field reads back as that field of the split,
   * and the whole reads back as the seconds it was made from.
   */
  lemma FormatRoundTrip(sec: nat)
    ensures var t := Format(sec);
      |t| >= 10 && t[|t| - 6] == ':' && t[|t| - 3] == ':'
      && AllDigits(t[..|t| - 6]) && AllDigits(t[|t| - 5..|t| - 3]) && AllDigits(t[|t| - 2..])
      && (Split(sec).hours < 10000 ==> |t| == 10)
      && ParseDecimal(t[..|t| - 6]) == Split(sec).hours
      && ParseDecimal(t[|t| - 5..|t| - 3]) == Split(sec).minutes
      && ParseDecimal(t[|t| - 2..]) == Split(sec).seconds
      && ParseClock(t) == sec
  {
    var c := Split(sec);
    DecimalWidth(c.minutes, 2);
    DecimalWidth(c.seconds, 2);
    if c.hours < 10000 {
      DecimalWidth(c.hours, 4);
    }
    var h, m, s := ZeroPad(c.hours, 4), ZeroPad(c.minutes, 2), ZeroPad(c.seconds, 2);
    var t := Format(sec);
    assert t == h + ":" + m + ":" + s;
    assert t[..|t| - 6] == h;
    assert t[|t| - 5..|t| - 3] == m;
    assert t[|t| - 2..] == s;
    ZeroPadRoundTrip(c.hours, 4);
    ZeroPadRoundTrip(c.minutes, 2);
    ZeroPadRoundTrip(c.seconds, 2);
  }
}
