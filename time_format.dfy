/**
 * The "MM:SS" clock text shown for every elapsed duration (formatTime in
 * script.js), built exactly as JavaScript builds it: Math.floor for the
 * minutes, the truncating `%` for the seconds, Number.prototype.toString and
 * padStart(2, '0') on both halves. ParseTime reads such a text back.
 */
module TimeFormat {
  import opened Wrappers

  predicate IsDigit(c: char) {
    '0' <= c <= '9'
  }

  predicate AllDigits(s: string) {
    forall i :: 0 <= i < |s| ==> IsDigit(s[i])
  }

  function DigitChar(d: nat): (c: char)
    requires d < 10
    ensures IsDigit(c) && c as int - '0' as int == d
  {
    ('0' as int + d) as char
  }

  function DigitValue(c: char): nat
    requires IsDigit(c)
  {
    c as int - '0' as int
  }

  /** The value of a string of decimal digits, most significant first. */
  function DecimalValue(s: string): nat
    requires AllDigits(s)
  {
    if s == [] then 0 else 10 * DecimalValue(s[..|s| - 1]) + DigitValue(s[|s| - 1])
  }

  /** Number.prototype.toString of a non-negative integer: its decimal digits, without leading zeros. */
  function NatToString(n: nat): (s: string)
    ensures 1 <= |s| && AllDigits(s)
    ensures n < 10 ==> |s| == 1
    ensures n < 100 ==> |s| <= 2
    ensures |s| > 1 ==> s[0] != '0'
  {
    if n < 10 then [DigitChar(n)] else NatToString(n / 10) + [DigitChar(n % 10)]
  }

  /** Number.prototype.toString of any integer: a '-' in front of a negative one. */
  function IntToString(i: int): string {
    if i < 0 then "-" + NatToString(-i) else NatToString(i)
  }

  /** String.prototype.padStart(2, '0'): '0's in front up to length two; longer texts unchanged. */
  function PadTwo(s: string): (r: string)
    ensures |r| == if |s| < 2 then 2 else |s|
  {
    if |s| == 0 then "00" else if |s| == 1 then "0" + s else s
  }

  /** JavaScript's `a % 60`: the remainder of division truncated toward zero, so it takes a's sign. */
  function JsRemainder60(a: int): (r: int)
    ensures (a - r) % 60 == 0
    ensures -60 < r < 60
    ensures r != 0 ==> (r < 0 <==> a < 0)
  {
    if a >= 0 then a % 60 else -((-a) % 60)
  }

  /** Math.floor(ms / 1000): the whole seconds in a millisecond difference, rounded down even when negative. */
  function WholeSeconds(ms: int): (s: int)
    ensures s * 1000 <= ms < s * 1000 + 1000
  {
    ms / 1000
  }

  /**
   * formatTime(seconds): zero-padded whole minutes, ':', zero-padded remaining
   * seconds. For a duration that is not negative the ':' stands third from
   * the end, after at least two minute characters; below 100 minutes the
   * text has exactly five characters.
   */
  function FormatTime(seconds: int): (t: string)
    ensures seconds >= 0 ==> |t| >= 5 && t[|t| - 3] == ':'
    ensures 0 <= seconds < 6000 ==> |t| == 5
  {
    ClockShape(seconds / 60, JsRemainder60(seconds));
    PadTwo(IntToString(seconds / 60)) + ":" + PadTwo(IntToString(JsRemainder60(seconds)))
  }

  /** Reads a "M..M:SS" text (at least two minute digits, seconds below 60) back as seconds. */
  function ParseTime(t: string): Option<nat> {
    if |t| < 5 then None
    else
      var head, secs := t[..|t| - 2], t[|t| - 2..];
      var minutes := head[..|head| - 1];
      if head[|head| - 1] == ':' && AllDigits(minutes) && AllDigits(secs) && DecimalValue(secs) < 60 then
        Some(60 * DecimalValue(minutes) + DecimalValue(secs))
      else
        None
  }

  lemma {:induction false} NatToStringValue(n: nat)
    ensures DecimalValue(NatToString(n)) == n
  {
    if n >= 10 {
      var s := NatToString(n);
      assert s[..|s| - 1] == NatToString(n / 10);
      NatToStringValue(n / 10);
    }
  }

  /** The text of any integer reads back as it: plain digits for one that is not negative, '-' and the digits of its magnitude otherwise. */
  lemma IntToStringValue(i: int)
    ensures i >= 0 ==> var s := IntToString(i);
      AllDigits(s) && (|s| > 1 ==> s[0] != '0') && DecimalValue(s) == i
    ensures i < 0 ==> var s := IntToString(i);
      |s| >= 2 && s[0] == '-' && AllDigits(s[1..]) && DecimalValue(s[1..]) == -i
  {
    if i >= 0 {
      NatToStringValue(i);
    } else {
      assert IntToString(i)[1..] == NatToString(-i);
      NatToStringValue(-i);
    }
  }

  /** Whole minutes and seconds below 60, both padded and joined by ':': the ':' is third from the end. */
  lemma ClockShape(minutes: int, seconds: int)
    ensures minutes >= 0 && 0 <= seconds < 60 ==>
      var t := PadTwo(IntToString(minutes)) + ":" + PadTwo(IntToString(seconds));
      |t| >= 5 && t[|t| - 3] == ':' && (minutes < 100 ==> |t| == 5)
  {
  }

  /**
   * padStart(2, '0') keeps the whole text at the end and puts only '0's in
   * front of it, just enough for two characters; a text of two characters or
   * more, a sign included, comes back unchanged.
   */
  lemma PadTwoContents(s: string)
    ensures var r := PadTwo(s);
      && |r| - |s| == (if |s| < 2 then 2 - |s| else 0)
      && r[..|r| - |s|] == "00"[..|r| - |s|] && r[|r| - |s|..] == s
  {
  }

  /** Zero-padding to two characters keeps the digits' value. */
  lemma PadTwoValue(s: string)
    requires 1 <= |s| && AllDigits(s)
    ensures AllDigits(PadTwo(s)) && DecimalValue(PadTwo(s)) == DecimalValue(s)
  {
  }

  /** Durations from 0 to 99:59 give exactly five characters: two digits, ':', two digits. */
  lemma FormatTimeFiveChars(seconds: int)
    requires 0 <= seconds < 6000
    ensures var r := FormatTime(seconds);
      |r| == 5 && r[2] == ':' && AllDigits(r[..2]) && AllDigits(r[3..])
  {
  }

  /** Minutes, ':' and two digits below 60 read back as that many minutes and seconds. */
  lemma ParseTimeJoin(pm: string, ps: string, minutes: nat, seconds: nat)
    requires 2 <= |pm| && |ps| == 2 && AllDigits(pm) && AllDigits(ps)
    requires DecimalValue(pm) == minutes && DecimalValue(ps) == seconds < 60
    ensures ParseTime(pm + ":" + ps) == Some(60 * minutes + seconds)
  {
    var head := pm + ":";
    var t := head + ps;
    assert t[..|t| - 2] == head && t[|t| - 2..] == ps;
    assert head[..|head| - 1] == pm && head[|head| - 1] == ':';
  }

  /** For a non-negative duration both halves are plain digit strings: minutes and the remainder below 60. */
  lemma FormatTimeOfNat(seconds: nat)
    ensures FormatTime(seconds) == PadTwo(NatToString(seconds / 60)) + ":" + PadTwo(NatToString(seconds % 60))
  {
    assert JsRemainder60(seconds) == seconds % 60;
  }

  /** Padded minutes and padded seconds below 60, joined by ':', read back as that many minutes and seconds. */
  lemma ParsePadded(q: nat, r: nat)
    requires r < 60
    ensures ParseTime(PadTwo(NatToString(q)) + ":" + PadTwo(NatToString(r))) == Some(60 * q + r)
  {
    var m, s := NatToString(q), NatToString(r);
    NatToStringValue(q);
    NatToStringValue(r);
    PadTwoValue(m);
    PadTwoValue(s);
    ParseTimeJoin(PadTwo(m), PadTwo(s), q, r);
  }

  lemma FormatTimeRoundTrip(seconds: nat)
    ensures ParseTime(FormatTime(seconds)) == Some(seconds)
  {
    var q, r := seconds / 60, seconds % 60;
    assert 60 * q + r == seconds;
    FormatTimeOfNat(seconds);
    ParsePadded(q, r);
  }

  /** Distinct non-negative durations never share a clock text. */
  lemma FormatTimeInjective(a: nat, b: nat)
    requires FormatTime(a) == FormatTime(b)
    ensures a == b
  {
    FormatTimeRoundTrip(a);
    FormatTimeRoundTrip(b);
  }

  /** A negative duration (the clock went back) keeps JavaScript's signs on both halves. */
  lemma FormatTimeNegative()
    ensures FormatTime(-5) == "-1:-5"
    ensures FormatTime(-65) == "-2:-5"
  {
    assert IntToString(-1) == "-1" && IntToString(-2) == "-2" && IntToString(-5) == "-5";
    assert PadTwo("-1") == "-1" && PadTwo("-2") == "-2" && PadTwo("-5") == "-5";
  }
}
