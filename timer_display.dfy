/**
 The two pure helpers the component renders with: formatTime, which writes a
 number of seconds as zero-padded minutes and seconds separated by a colon,
 and getModeTitle, which names the current mode.  ParseTime reads the
 formatted text back, so that formatting can be shown to lose nothing.
 */
module TimerDisplay {
  import opened TimerState

  predicate IsDigit(c: char)
  {
    '0' <= c <= '9'
  }

  predicate AllDigits(s: string)
  {
    forall i :: 0 <= i < |s| ==> IsDigit(s[i])
  }

  function DigitChar(d: nat): (c: char)
    requires d < 10
    ensures IsDigit(c) && c as int - '0' as int == d
  {
    ('0' as int + d) as char
  }

  function DigitValue(c: char): nat
    requires IsDigit(c)
  {
    c as int - '0' as int
  }

  /**
   `n.toString()` for a non-negative integer: its decimal digits, most
   significant first, with no leading zero.
   */
  function Decimal(n: nat): (r: string)
    ensures 1 <= |r| && AllDigits(r)
    ensures |r| > 1 ==> r[0] != '0'
    ensures n < 10 <==> |r| == 1
    ensures n < 100 ==> |r| <= 2
    decreases n
  {
    if n < 10 then [DigitChar(n)] else Decimal(n / 10) + [DigitChar(n % 10)]
  }

  /** `s.padStart(width, fill)` with a one-character fill. */
  function PadStart(s: string, width: nat, fill: char): (r: string)
    ensures |r| == if |s| >= width then |s| else width
    ensures r[|r| - |s|..] == s
    ensures forall i :: 0 <= i < |r| - |s| ==> r[i] == fill
  {
    if |s| >= width then s else seq(width - |s|, _ => fill) + s
  }

  /** Below 6000 seconds the whole minutes have at most two digits. */
  lemma MinutesBelowHundred(seconds: nat)
    ensures seconds < 6000 ==> seconds / 60 < 100
  {
  }

  /** Whole minutes and leftover seconds add back up to the total. */
  lemma MinutesAndSeconds(seconds: nat)
    ensures seconds / 60 * 60 + seconds % 60 == seconds && seconds % 60 < 60
  {
  }

  /**
   The template literal of formatTime: minutes and seconds, each padded to two
   digits, joined by a colon.  For seconds below 60 the colon is always third
   from the end, and below 100 minutes the text has five characters.
   */
  function Clock(minutes: nat, secs: nat): (r: string)
    ensures secs < 60 ==> |r| >= 5 && r[|r| - 3] == ':'
    ensures secs < 60 && minutes < 100 ==> |r| == 5
  {
    var pm, ps := PadStart(Decimal(minutes), 2, '0'), PadStart(Decimal(secs), 2, '0');
    JoinedShape(pm, ps);
    pm + ":" + ps
  }

  /** Where the colon falls when two fields are joined. */
  lemma JoinedShape(pm: string, ps: string)
    ensures |pm + ":" + ps| == |pm| + |ps| + 1
    ensures |ps| == 2 ==> (pm + ":" + ps)[|pm| + |ps| - 2] == ':'
  {
  }

  /**
   `formatTime`: whole minutes and the remaining seconds, each padded to two
   digits.  The text always ends in a colon and two characters, and below
   6000 seconds it has exactly five.
   */
  function FormatTime(seconds: nat): (r: string)
    ensures |r| >= 5 && r[|r| - 3] == ':'
    ensures seconds < 6000 ==> |r| == 5
  {
    var m, s := seconds / 60, seconds % 60;
    MinutesBelowHundred(seconds);
    assert s < 60;
    Clock(m, s)
  }

  /** The value of a string of decimal digits (leading zeros allowed). */
  function ParseDecimal(s: string): nat
    requires AllDigits(s)
    decreases |s|
  {
    if s == [] then 0 else ParseDecimal(s[..|s| - 1]) * 10 + DigitValue(s[|s| - 1])
  }

  /** Reads "m...m:ss" back into seconds; None when the text is not of that form. */
  function ParseTime(r: string): Option<nat>
  {
    if |r| < 5 || r[|r| - 3] != ':' then None
    else
      var mm, ss := r[..|r| - 3], r[|r| - 2..];
      if !AllDigits(mm) || !AllDigits(ss) then None
      else
        var secs := ParseDecimal(ss);
        if secs >= 60 then None else Some(ParseDecimal(mm) * 60 + secs)
  }

  lemma {:induction false} DecimalRoundTrip(n: nat)
    ensures ParseDecimal(Decimal(n)) == n
    decreases n
  {
    if n >= 10 {
      var r := Decimal(n);
      assert r[..|r| - 1] == Decimal(n / 10);
      DecimalRoundTrip(n / 10);
    }
  }

  lemma {:induction false} ParseZeros(k: nat)
    ensures AllDigits(seq(k, _ => '0')) && ParseDecimal(seq(k, _ => '0')) == 0
    decreases k
  {
    if k > 0 {
      assert seq(k, _ => '0')[..k - 1] == seq(k - 1, _ => '0');
      ParseZeros(k - 1);
    }
  }

  /** Leading zeros do not change the value of a digit string. */
  lemma {:induction false} LeadingZeros(z: string, s: string)
    requires AllDigits(s) && forall i :: 0 <= i < |z| ==> z[i] == '0'
    ensures AllDigits(z + s) && ParseDecimal(z + s) == ParseDecimal(s)
    decreases |s|
  {
    assert z == seq(|z|, _ => '0');
    if s == [] {
      assert z + s == z;
      ParseZeros(|z|);
    } else {
      assert (z + s)[..|z + s| - 1] == z + s[..|s| - 1];
      LeadingZeros(z, s[..|s| - 1]);
    }
  }

  /** A zero-padded number reads back as the number. */
  lemma PaddedRoundTrip(n: nat, width: nat)
    ensures AllDigits(PadStart(Decimal(n), width, '0'))
    ensures ParseDecimal(PadStart(Decimal(n), width, '0')) == n
  {
    var d := Decimal(n);
    var p := PadStart(d, width, '0');
    assert p == p[..|p| - |d|] + d;
    LeadingZeros(p[..|p| - |d|], d);
    DecimalRoundTrip(n);
  }

  /** ParseTime splits at the colon three characters from the end. */
  lemma ParseJoined(mm: string, ss: string, minutes: nat, secs: nat)
    requires AllDigits(mm) && AllDigits(ss) && |mm| >= 2 && |ss| == 2
    requires ParseDecimal(mm) == minutes && ParseDecimal(ss) == secs && secs < 60
    ensures ParseTime(mm + ":" + ss) == Some(minutes * 60 + secs)
  {
    var r := mm + ":" + ss;
    assert |r| == |mm| + 3 && r[|r| - 3] == ':';
    assert r[..|r| - 3] == mm;
    assert r[|r| - 2..] == ss;
  }

  lemma ClockRoundTrip(minutes: nat, secs: nat)
    requires secs < 60
    ensures ParseTime(Clock(minutes, secs)) == Some(minutes * 60 + secs)
  {
    var pm, ps := PadStart(Decimal(minutes), 2, '0'), PadStart(Decimal(secs), 2, '0');
    assert Clock(minutes, secs) == pm + ":" + ps;
    assert |Decimal(secs)| <= 2;
    PaddedRoundTrip(minutes, 2);
    PaddedRoundTrip(secs, 2);
    ParseJoined(pm, ps, minutes, secs);
  }

  /** Decoding the formatted text gives back the number of seconds. */
  lemma FormatTimeRoundTrip(seconds: nat)
    ensures ParseTime(FormatTime(seconds)) == Some(seconds)
  {
    var m, s := seconds / 60, seconds % 60;
    MinutesAndSeconds(seconds);
    assert FormatTime(seconds) == Clock(m, s);
    ClockRoundTrip(m, s);
  }

  /** Two different numbers of seconds are never displayed alike. */
  lemma FormatTimeInjective(a: nat, b: nat)
    requires FormatTime(a) == FormatTime(b)
    ensures a == b
  {
    FormatTimeRoundTrip(a);
    FormatTimeRoundTrip(b);
  }

  lemma PadTwoDigits(n: nat)
    requires n < 100
    ensures PadStart(Decimal(n), 2, '0') == [DigitChar(n / 10), DigitChar(n % 10)]
  {
  }

  lemma ClockDigits(minutes: nat, secs: nat)
    requires minutes < 100 && secs < 60
    ensures Clock(minutes, secs) == [DigitChar(minutes / 10), DigitChar(minutes % 10), ':',
                                     DigitChar(secs / 10), DigitChar(secs % 10)]
  {
    var pm, ps := PadStart(Decimal(minutes), 2, '0'), PadStart(Decimal(secs), 2, '0');
    PadTwoDigits(minutes);
    PadTwoDigits(secs);
    JoinFields(pm, ps);
  }

  lemma JoinFields(a: string, b: string)
    requires |a| == 2 && |b| == 2
    ensures a + ":" + b == [a[0], a[1], ':', b[0], b[1]]
  {
  }

  /**
   Below 100 minutes the display is exactly "MM:SS": the tens and units of the
   minutes, a colon, and the tens and units of the seconds.
   */
  lemma FormatTimeDigits(seconds: nat)
    requires seconds < 6000
    ensures var m, s := seconds / 60, seconds % 60;
      FormatTime(seconds) == [DigitChar(m / 10), DigitChar(m % 10), ':', DigitChar(s / 10), DigitChar(s % 10)]
  {
    MinutesBelowHundred(seconds);
    ClockDigits(seconds / 60, seconds % 60);
  }

  /** `getModeTitle`: the heading shown for each mode. */
  function ModeTitle(m: Mode): (title: string)
    ensures title != ""
  {
    match m
    case Work => "Work Time"
    case ShortBreak => "Short Break"
    case LongBreak => "Long Break"
  }

  /** The heading tells the modes apart. */
  lemma ModeTitleInjective(a: Mode, b: Mode)
    requires ModeTitle(a) == ModeTitle(b)
    ensures a == b
  {
  }
}
