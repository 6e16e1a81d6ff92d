/**
  The recording clock label (`formatTime`, shared by `VoiceRecordingControls` and
  `VoiceRecorder`): whole seconds shown as minutes, a colon, and two-digit seconds.
*/
module VoiceRecordingControls {
  import opened Wrappers

  predicate IsDigit(c: char)
  {
    '0' <= c <= '9'
  }

  predicate AllDigits(s: string)
  {
    forall i :: 0 <= i < |s| ==> IsDigit(s[i])
  }

  /** A decimal numeral as `toString` writes it: non-empty, and "0" is the only one starting with '0'. */
  predicate NoLeadingZero(s: string)
  {
    s != [] && (s[0] == '0' ==> |s| == 1)
  }

  function DigitChar(d: nat): (c: char)
    requires d < 10
    ensures IsDigit(c) && c as int - '0' as int == d
  {
    ('0' as int + d) as char
  }

  /** The number a string of decimal digits denotes, most significant digit first. */
  function DecimalValue(s: string): (v: nat)
    requires AllDigits(s)
  {
    if s == [] then 0 else DecimalValue(s[..|s| - 1]) * 10 + (s[|s| - 1] as int - '0' as int)
  }

  /** `n.toString()` for a non-negative integer: decimal digits without leading zeros. */
  function NatToString(n: nat): (r: string)
    ensures r != [] && AllDigits(r)
    ensures DecimalValue(r) == n
    ensures NoLeadingZero(r)
    ensures n < 10 ==> |r| == 1
    ensures n < 100 ==> |r| <= 2
  {
    if n < 10 then [DigitChar(n)]
    else
      var prefix := NatToString(n / 10);
      var r := prefix + [DigitChar(n % 10)];
      assert r[..|r| - 1] == prefix;
      r
  }

  /** `s.padStart(width, fill)` for a one-character fill. */
  function PadStart(s: string, width: nat, fill: char): (r: string)
    ensures |r| == if |s| < width then width else |s|
    ensures r[|r| - |s|..] == s
    ensures forall i :: 0 <= i < |r| - |s| ==> r[i] == fill
  {
    if |s| >= width then s
    else
      var padding := seq(width - |s|, _ => fill);
      assert (padding + s)[|padding|..] == s;
      padding + s
  }

  /** `secs.toString().padStart(2, '0')` for a seconds value below sixty: exactly two digits. */
  function TwoDigitSeconds(secs: nat): (r: string)
    requires secs < 60
    ensures |r| == 2 && AllDigits(r) && DecimalValue(r) == secs
    ensures r[0] == '0' <==> secs < 10
  {
    var digits := NatToString(secs);
    var r := PadStart(digits, 2, '0');
    if secs < 10 then
      assert r == ['0', digits[0]];
      assert r[..1] == "0";
      r
    else
      assert r == digits;
      r
  }

  /**
    `formatTime(seconds)`: the minutes `seconds / 60` in decimal without leading zeros, the only
    ':' in the label, then `seconds % 60` as exactly two digits, with a leading '0' below ten.
  */
  function FormatTime(seconds: nat): (r: string)
    ensures |r| >= 4 && r[|r| - 3] == ':'
    ensures forall i :: 0 <= i < |r| && r[i] == ':' ==> i == |r| - 3
    ensures AllDigits(r[..|r| - 3]) && DecimalValue(r[..|r| - 3]) == seconds / 60
    ensures AllDigits(r[|r| - 2..]) && DecimalValue(r[|r| - 2..]) == seconds % 60 < 60
    ensures r[|r| - 2] == '0' <==> seconds % 60 < 10
    ensures NoLeadingZero(r[..|r| - 3])
  {
    var mins := NatToString(seconds / 60);
    var secs := TwoDigitSeconds(seconds % 60);
    JoinedLabel(mins, secs);
    mins + ":" + secs
  }

  /** Where the parts of `mins + ":" + secs` sit when both parts are digits only. */
  lemma JoinedLabel(mins: string, secs: string)
    requires mins != [] && AllDigits(mins) && |secs| == 2 && AllDigits(secs)
    ensures var r := mins + ":" + secs;
            |r| >= 4 && r[|r| - 3] == ':' && r[..|r| - 3] == mins && r[|r| - 2..] == secs &&
            forall i :: 0 <= i < |r| && r[i] == ':' ==> i == |r| - 3
  {
    var r := mins + ":" + secs;
    assert r[..|r| - 3] == mins;
    assert r[|r| - 2..] == secs;
  }

  /** Reads a `m:ss` label back as a number of seconds; the inverse of FormatTime. */
  function ParseTime(shown: string): (t: Option<nat>)
  {
    if |shown| >= 4 && shown[|shown| - 3] == ':' &&
       AllDigits(shown[..|shown| - 3]) && AllDigits(shown[|shown| - 2..]) &&
       DecimalValue(shown[|shown| - 2..]) < 60
    then Some(DecimalValue(shown[..|shown| - 3]) * 60 + DecimalValue(shown[|shown| - 2..]))
    else None
  }

  /** Minutes times sixty plus seconds gives back the elapsed time. */
  lemma FormatTimeRoundTrip(seconds: nat)
    ensures ParseTime(FormatTime(seconds)) == Some(seconds)
  {
  }

  /** Different elapsed times never show the same label. */
  lemma FormatTimeInjective(a: nat, b: nat)
    requires FormatTime(a) == FormatTime(b)
    ensures a == b
  {
    FormatTimeRoundTrip(a);
    FormatTimeRoundTrip(b);
  }
}
