/** The clock text of the audio recorder and player (`formatTime` in both
    AudioRecorder.js and AudioMessage.js, which are the same function) and
    the rounding of a recording's length, on whole seconds and
    milliseconds. */
module MediaTime {

  predicate IsDigit(c: char) { '0' <= c <= '9' }

  function Digit(d: nat): (c: char)
    requires d < 10
    ensures IsDigit(c)
  {
    "0123456789"[d]
  }

  function DigitValue(c: char): nat
    requires IsDigit(c)
  {
    (c as int - '0' as int) as nat
  }

  predicate AllDigits(s: string)
  {
    forall i :: 0 <= i < |s| ==> IsDigit(s[i])
  }

  /** The number a string of decimal digits denotes. */
  function DigitsValue(s: string): nat
    requires AllDigits(s)
  {
    if |s| == 0 then 0 else DigitsValue(s[..|s| - 1]) * 10 + DigitValue(s[|s| - 1])
  }

  /** `n.toString()` for a natural number: its decimal digits, with no
      leading zero. */
  function NatToString(n: nat): (r: string)
    ensures |r| >= 1 && AllDigits(r)
    ensures |r| > 1 ==> r[0] != '0'
    ensures n < 10 <==> |r| == 1
  {
    if n < 10 then [Digit(n)]
    else
      var r := NatToString(n / 10) + [Digit(n % 10)];
      assert r[0] == NatToString(n / 10)[0];
      r
  }

  /** Reading the digits back gives the number. */
  lemma {:induction false} NatToStringValue(n: nat)
    ensures DigitsValue(NatToString(n)) == n
  {
    var r := NatToString(n);
    assert "0123456789"[0] == '0' && "0123456789"[1] == '1' && "0123456789"[2] == '2'
        && "0123456789"[3] == '3' && "0123456789"[4] == '4' && "0123456789"[5] == '5'
        && "0123456789"[6] == '6' && "0123456789"[7] == '7' && "0123456789"[8] == '8'
        && "0123456789"[9] == '9';
    if n < 10 {
      assert r[..0] == [];
    } else {
      NatToStringValue(n / 10);
      assert r[..|r| - 1] == NatToString(n / 10);
    }
  }

  /** `s.padStart(2, '0')` */
  function PadTwo(s: string): (r: string)
    ensures |s| < 2 ==> |r| == 2 && r[2 - |s|..] == s && forall i :: 0 <= i < 2 - |s| ==> r[i] == '0'
    ensures |s| >= 2 ==> r == s
  {
    if |s| == 0 then "00" else if |s| == 1 then "0" + s else s
  }

  /** `formatTime(seconds)`: the minutes, a colon and the seconds of the
      minute as two digits, so that the text reads back as `seconds`. */
  function FormatTime(seconds: nat): (r: string)
    ensures ClockText(r) && r[..|r| - 3] == NatToString(seconds / 60)
    ensures DigitsValue(r[..|r| - 3]) == seconds / 60 && DigitsValue(r[|r| - 2..]) == seconds % 60
  {
    var m := NatToString(seconds / 60);
    var s := NatToString(seconds % 60);
    NatToStringValue(seconds / 60);
    NatToStringValue(seconds % 60);
    var p := PadTwo(s);
    PadTwoValue(s);
    var r := m + ":" + p;
    assert r[..|r| - 3] == m;
    assert r[|r| - 2..] == p;
    r
  }

  /** Padding keeps the value of a one- or two-digit number. */
  lemma PadTwoValue(s: string)
    requires AllDigits(s) && 1 <= |s| <= 2
    ensures |PadTwo(s)| == 2 && AllDigits(PadTwo(s)) && DigitsValue(PadTwo(s)) == DigitsValue(s)
  {
    if |s| == 1 {
      var p := PadTwo(s);
      assert p[..1] == "0" && s[..0] == [];
      assert "0"[..0] == [];
    }
  }

  /** Digits, a colon and two digits. */
  predicate ClockText(t: string)
  {
    |t| >= 4 && t[|t| - 3] == ':' && AllDigits(t[..|t| - 3]) && AllDigits(t[|t| - 2..])
  }

  /** Reading an `m:ss` clock text back into seconds. */
  function ParseTime(t: string): (seconds: nat)
    requires ClockText(t)
  {
    DigitsValue(t[..|t| - 3]) * 60 + DigitsValue(t[|t| - 2..])
  }

  /** `formatTime` loses nothing on whole seconds. */
  lemma FormatTimeParses(seconds: nat)
    ensures ParseTime(FormatTime(seconds)) == seconds
  {
  }

  /** Two different lengths never show the same clock text. */
  lemma FormatTimeInjective(a: nat, b: nat)
    requires FormatTime(a) == FormatTime(b)
    ensures a == b
  {
    FormatTimeParses(a);
    FormatTimeParses(b);
  }

  /** `Math.round(ms / 1000)` for a non-negative length in milliseconds: the
      nearest whole second, halves rounded up. */
  function RoundToSeconds(ms: nat): (s: nat)
    ensures s * 1000 <= ms + 500 < s * 1000 + 1000
  {
    (ms + 500) / 1000
  }
}
