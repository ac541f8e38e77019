/** The `MM:SS` clock format. Every file of the core carries the same
    `_formater_temps` static method; this module is that one definition, and
    `ClockValue` is the `MM*60 + SS` reading that the transcript parser applies
    to a clock it matched. */
module TimeFormat {
  import opened Text

  /** `int(secondes // 60)`: floor division. */
  function Minutes(s: real): int {
    (s / 60.0).Floor
  }

  /** `int(secondes % 60)`: Python's float `%` follows the sign of the divisor,
      so the remainder lies in [0, 60) and `int` truncates it to a whole second. */
  function Seconds(s: real): (r: int)
    ensures 0 <= r < 60
  {
    (s - 60.0 * (Minutes(s) as real)).Floor
  }

  /** `f"{minutes:02d}:{secs:02d}"`. */
  function FormaterTemps(s: real): string {
    Pad02(Minutes(s)) + ":" + Pad02(Seconds(s))
  }

  /** Minutes and seconds together are the whole seconds of `s`, for every `s`,
      negative ones included. */
  lemma MinutesSecondsFloor(s: real)
    ensures Minutes(s) * 60 + Seconds(s) == s.Floor
  {
    var m := Minutes(s);
    var f := Seconds(s);
    assert (f as real) <= s - 60.0 * (m as real) < (f as real) + 1.0;
    assert ((f + 60 * m) as real) <= s < ((f + 60 * m) as real) + 1.0;
  }

  /** A five-character clock `DD:DD`, as `\d{2}:\d{2}` matches it. */
  predicate IsClock(c: string) {
    |c| == 5 && IsDigit(c[0]) && IsDigit(c[1]) && c[2] == ':' && IsDigit(c[3]) && IsDigit(c[4])
  }

  /** `int(parts[0]) * 60 + int(parts[1])` after `split(':')`. */
  function ClockValue(c: string): int
    requires IsClock(c)
  {
    (DigitValue(c[0]) * 10 + DigitValue(c[1])) * 60 + DigitValue(c[3]) * 10 + DigitValue(c[4])
  }

  /** Below 100 minutes the format is a clock, and reading it back gives the
      whole seconds of the input. */
  lemma FormaterTempsReadsBack(s: real)
    requires 0.0 <= s < 6000.0
    ensures IsClock(FormaterTemps(s))
    ensures ClockValue(FormaterTemps(s)) == s.Floor
  {
    MinutesSecondsFloor(s);
    var c := FormaterTemps(s);
    assert 0 <= Minutes(s) < 100;
    assert c[..2] == Pad02(Minutes(s)) && c[3..] == Pad02(Seconds(s));
    assert c[0] == Pad02(Minutes(s))[0] && c[1] == Pad02(Minutes(s))[1];
    assert c[3] == Pad02(Seconds(s))[0] && c[4] == Pad02(Seconds(s))[1];
  }

  /** The first half of `FormaterTempsReadsBack` alone. */
  lemma FormaterTempsClock(s: real)
    requires 0.0 <= s < 6000.0
    ensures IsClock(FormaterTemps(s))
  {
    FormaterTempsReadsBack(s);
  }

  /** From 100 minutes on, the minutes field takes three or more digits, so the
      text is no longer a `DD:DD` clock. */
  lemma FormaterTempsWidensAt100Minutes(s: real)
    requires s >= 6000.0
    ensures |FormaterTemps(s)| > 5
  {
    assert Minutes(s) >= 100;
    assert |NatToString(Minutes(s))| >= 3 by {
      NatToStringLength(Minutes(s));
    }
  }

  /** Whatever the time, a formatted clock holds only digits, `-` and `:`. */
  lemma FormaterTempsClockChars(s: real)
    ensures forall k :: 0 <= k < |FormaterTemps(s)| ==>
      IsDigit(FormaterTemps(s)[k]) || FormaterTemps(s)[k] in ":-"
  {
    var m := Pad02(Minutes(s));
    var x := Pad02(Seconds(s));
    PadChars(Minutes(s));
    PadChars(Seconds(s));
    assert FormaterTemps(s) == m + ":" + x;
  }

  /** `{n:02d}` writes digits, after a `-` for a negative number. */
  lemma PadChars(n: int)
    ensures forall k :: 0 <= k < |Pad02(n)| ==> IsDigit(Pad02(n)[k]) || Pad02(n)[k] == '-'
  {
    if n < 0 {
      assert Pad02(n)[1..] == NatToString(-n);
    } else if n < 10 {
      assert Pad02(n)[1..] == NatToString(n);
    }
  }

  lemma {:induction false} NatToStringLength(n: nat)
    requires n >= 100
    ensures |NatToString(n)| >= 3
  {
    assert NatToString(n) == NatToString(n / 10) + [Digit(n % 10)];
    assert |NatToString(n / 10)| >= 2;
  }
}
