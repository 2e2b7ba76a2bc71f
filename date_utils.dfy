/** Duration arithmetic of frontend/src/utils/dateUtils.js. Minutes and
    millisecond timestamps are integers; the JavaScript operators are those
    of module Js (`Math.floor` of a quotient, and the truncating `%`). */
module DateUtils {
  import opened Text
  import Js

  /** `formatDuration(minutes)`: `${Math.floor(m / 60)}h ${m % 60}m`. */
  function FormatDuration(minutes: int): string {
    IntToString(Js.FloorDiv(minutes, 60)) + "h " + IntToString(Js.Rem(minutes, 60)) + "m"
  }

  /** For a non-negative duration the two printed components are whole hours
      and the leftover minutes: `60 * hours + rest == minutes`, `0 <= rest < 60`. */
  lemma FormatDurationSplits(minutes: int)
    requires minutes >= 0
    ensures exists hours: nat, rest: nat ::
      && rest < 60 && 60 * hours + rest == minutes
      && FormatDuration(minutes) == NatToString(hours) + "h " + NatToString(rest) + "m"
  {
    var hours, rest := minutes / 60, minutes % 60;
    assert Js.FloorDiv(minutes, 60) == hours && Js.Rem(minutes, 60) == rest;
    assert FormatDuration(minutes) == NatToString(hours) + "h " + NatToString(rest) + "m";
  }

  /** A negative duration keeps the sign in both components, since `%`
      truncates toward zero while the hours are floored: -1 prints as "-1h -1m". */
  lemma FormatDurationNegative()
    ensures FormatDuration(-1) == "-1h -1m"
    ensures FormatDuration(-61) == "-2h -1m"
  {
    assert Js.FloorDiv(-1, 60) == -1 && Js.Rem(-1, 60) == -1;
    assert Js.FloorDiv(-61, 60) == -2 && Js.Rem(-61, 60) == -1;
    assert NatToString(1) == "1" && NatToString(2) == "2";
  }

  /** Length of the run of digits that starts `s`. */
  function DigitRunLength(s: string): nat {
    if s != [] && IsDigit(s[0]) then 1 + DigitRunLength(s[1..]) else 0
  }

  lemma {:induction false} DigitRunOfPrefix(x: string, r: string)
    requires AllDigits(x) && r != [] && !IsDigit(r[0])
    ensures DigitRunLength(x + r) == |x|
  {
    if x == [] {
      assert x + r == r;
    } else {
      assert (x + r)[1..] == x[1..] + r;
      DigitRunOfPrefix(x[1..], r);
    }
  }

  /** Two digit strings followed by text that starts with a non-digit can
      only make equal strings when the digit strings are equal. */
  lemma DigitPrefixUnique(x1: string, r1: string, x2: string, r2: string)
    requires AllDigits(x1) && AllDigits(x2)
    requires r1 != [] && r2 != [] && !IsDigit(r1[0]) && !IsDigit(r2[0])
    requires x1 + r1 == x2 + r2
    ensures x1 == x2 && r1 == r2
  {
    DigitRunOfPrefix(x1, r1);
    DigitRunOfPrefix(x2, r2);
    assert x1 == (x1 + r1)[..|x1|] && x2 == (x2 + r2)[..|x2|];
    assert r1 == (x1 + r1)[|x1|..] && r2 == (x2 + r2)[|x2|..];
  }

  /** The printed hours and minutes can be read back off the printed form. */
  lemma SplitFormatted(h1: string, m1: string, h2: string, m2: string)
    requires AllDigits(h1) && AllDigits(m1) && AllDigits(h2) && AllDigits(m2)
    requires h1 + "h " + m1 + "m" == h2 + "h " + m2 + "m"
    ensures h1 == h2 && m1 == m2
  {
    var t1, t2 := "h " + m1 + "m", "h " + m2 + "m";
    assert h1 + "h " + m1 + "m" == h1 + t1;
    assert h2 + "h " + m2 + "m" == h2 + t2;
    DigitPrefixUnique(h1, t1, h2, t2);
    assert t1[2..] == m1 + "m" && t2[2..] == m2 + "m";
    DigitPrefixUnique(m1, "m", m2, "m");
  }

  /** Distinct non-negative durations print differently, so the printed form
      determines the duration. */
  lemma FormatDurationInjective(a: int, b: int)
    requires a >= 0 && b >= 0
    requires FormatDuration(a) == FormatDuration(b)
    ensures a == b
  {
    var qa, ma, qb, mb := a / 60, a % 60, b / 60, b % 60;
    FormatDurationNat(a);
    FormatDurationNat(b);
    SplitFormatted(NatToString(qa), NatToString(ma), NatToString(qb), NatToString(mb));
    NatToStringInjective(qa, qb);
    NatToStringInjective(ma, mb);
    assert a == 60 * qa + ma && b == 60 * qb + mb;
  }

  lemma FormatDurationNat(m: int)
    requires m >= 0
    ensures FormatDuration(m) == NatToString(m / 60) + "h " + NatToString(m % 60) + "m"
  {
  }

  /** `calculateDuration(departure, arrival)` on millisecond timestamps:
      the whole minutes between them, rounded down. */
  function CalculateDuration(departureMs: int, arrivalMs: int): (minutes: int)
    ensures minutes * 60000 <= arrivalMs - departureMs < (minutes + 1) * 60000
  {
    Js.FloorDiv(arrivalMs - departureMs, 1000 * 60)
  }

  /** Rounding is toward minus infinity: an arrival before the departure gives
      a negative duration, and any gap shorter than a minute gives 0. */
  lemma CalculateDurationSign(departureMs: int, arrivalMs: int)
    ensures arrivalMs < departureMs ==> CalculateDuration(departureMs, arrivalMs) < 0
    ensures 0 <= arrivalMs - departureMs < 60000 ==> CalculateDuration(departureMs, arrivalMs) == 0
    ensures departureMs <= arrivalMs ==> CalculateDuration(departureMs, arrivalMs) >= 0
  {
  }
}
